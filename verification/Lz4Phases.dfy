/**
 What the two phases of the decompressor compute together. The fast phase has its own, fewer
 checks, against sizes reduced by a padding; the careful loop resumes at its last token. Leaving
 a buffer, undefined in the source, is the outcome `Stray` of either phase.
 */
module Lz4Phases {
  import opened Lz4Format

  const FAST_PHASE_PADDING: nat := 64

  /** The smallest output on which the fast phase can go wrong. */
  const HOT_OUTPUT: nat := 65585

  // ---- the fast phase ----

  datatype FastLits = LitsBreak | LitsFault | Lits(start: nat, size: nat)

  /** The literals of a token: long ones are checked, short ones always copied as 16 bytes. */
  function FastLiterals(inp: seq<byte>, i: nat, o: nat, cap: nat): (r: FastLits)
    requires i + FAST_PHASE_PADDING < |inp| && FAST_PHASE_PADDING < cap
    ensures r.Lits? ==> i < r.start && r.start + r.size + 50 <= |inp| && o + r.size <= cap
  {
    var n := High(inp[i]);
    if n < 15 then if o + 16 > cap then LitsFault else Lits(i + 1, n) else
    match ReadSize(inp, |inp| - FAST_PHASE_PADDING, n, i + 1)
    case Missing => LitsBreak
    case Ext(size, j) =>
      if Word(j + size) > |inp| - FAST_PHASE_PADDING || Word(o + size) > cap - FAST_PHASE_PADDING then LitsBreak
      else if j + size > |inp| - FAST_PHASE_PADDING || o + size > cap - FAST_PHASE_PADDING then LitsFault
      else Lits(j, size)
  }

  datatype FastMove = Break | Fault | Next(i: nat, out: seq<byte>)

  /** The match of a token. Past the window size a short one with an offset of at least 8 is always
      copied as 20 bytes; any other is checked. */
  function FastMatch(o: seq<byte>, short: bool, offset: nat, field: Ext, cap: nat): (r: FastMove)
    requires offset <= WINDOW_SIZE && FAST_PHASE_PADDING < cap && (short && field.Ext? ==> field.sum < 15)
    ensures r.Next? ==> field.Ext? && r.i == field.next && |o| <= |r.out| <= cap
  {
    if field.Missing? then Break
    else if short && offset >= 8 && |o| >= WINDOW_SIZE then
      if |o| + 20 > cap then Fault else Next(field.next, CopyMatch(o, offset, field.sum + MIN_MATCH))
    else
      var size := Word(field.sum + MIN_MATCH);
      if offset > |o| || offset == 0 || Word(|o| + size) > cap - FAST_PHASE_PADDING then Break
      else if |o| + size > cap - FAST_PHASE_PADDING then Fault
      else Next(field.next, CopyMatch(o, offset, size))
  }

  /** One round of the fast loop. */
  function FastStep(inp: seq<byte>, i: nat, out: seq<byte>, cap: nat): (r: FastMove)
    requires i + FAST_PHASE_PADDING < |inp| && FAST_PHASE_PADDING < cap
    ensures r.Next? ==> i < r.i <= |inp| && |out| <= |r.out| <= cap
  {
    match FastLiterals(inp, i, |out|, cap)
    case LitsBreak => Break
    case LitsFault => Fault
    case Lits(start, size) =>
      var j, field := start + size, Low(inp[i]);
      FastMatch(out + inp[start..j], field < 15, Offset(inp[j], inp[j + 1]),
                ReadSize(inp, |inp| - FAST_PHASE_PADDING, field, j + 2), cap)
  }

  /** The fast loop from the token at `i` on, and then the careful one. */
  function FastRun(inp: seq<byte>, i: nat, out: seq<byte>, cap: nat): (r: Result)
    requires FAST_PHASE_PADDING < cap
    decreases |inp| - i
  {
    if i + FAST_PHASE_PADDING >= |inp| then Decode(inp, i, out, cap) else
    match FastStep(inp, i, out, cap)
    case Break => Decode(inp, i, out, cap)
    case Fault => Stray
    case Next(i', out') => FastRun(inp, i', out', cap)
  }

  /** The whole decompressor. */
  function TwoPhase(inp: seq<byte>, cap: nat): (r: Result) {
    if |inp| > MAX_SIZE || cap > MAX_SIZE then Err(InvalidParams)
    else if |inp| > FAST_PHASE_PADDING && cap > FAST_PHASE_PADDING then FastRun(inp, 0, [], cap)
    else Decode(inp, 0, [], cap)
  }

  // ---- the fast phase against the careful loop ----

  lemma LimitedRead(inp: seq<byte>, limit: nat, field: nat, i: nat)
    requires limit <= |inp| && ReadSize(inp, limit, field, i).Ext?
    ensures ReadSize(inp, |inp|, field, i) == ReadSize(inp, limit, field, i)
  {
  }

  lemma MatchRefines(o: seq<byte>, short: bool, offset: nat, field: Ext, cap: nat)
    requires offset <= WINDOW_SIZE && FAST_PHASE_PADDING < cap <= MAX_SIZE && (short && field.Ext? ==> field.sum < 15)
    ensures match FastMatch(o, short, offset, field, cap)
      case Break => true
      case Fault =>
        && field.Ext?
        && (MatchStep(o, offset, field, cap) == Leave || (short && |o| >= WINDOW_SIZE && |o| + 20 > cap))
      case Next(i', out') =>
        && MatchStep(o, offset, field, cap) == More(i', out')
        && (|out'| <= cap - FAST_PHASE_PADDING || |o| >= WINDOW_SIZE)
  {
    hide CopyMatch;
  }

  lemma LiteralsRefine(inp: seq<byte>, i: nat, out: seq<byte>, cap: nat)
    requires i + FAST_PHASE_PADDING < |inp| <= MAX_SIZE && FAST_PHASE_PADDING < cap <= MAX_SIZE && |out| <= cap
    ensures match FastLiterals(inp, i, |out|, cap)
      case LitsBreak => true
      case LitsFault => TokenStep(inp, i, out, cap) == Leave || |out| + 16 > cap
      case Lits(start, size) =>
        && ReadSize(inp, |inp|, High(inp[i]), i + 1) == Ext(size, start)
        && (size <= 14 || |out| + size + FAST_PHASE_PADDING <= cap)
  {
    hide ReadSize, MatchStep, Offset, High, Low;
    var limit := |inp| - FAST_PHASE_PADDING;
    if ReadSize(inp, limit, High(inp[i]), i + 1).Ext? { LimitedRead(inp, limit, High(inp[i]), i + 1); }
    ShortField(inp, |inp|, High(inp[i]), i + 1);
  }

  /** A round of the fast loop that goes on does what the careful loop does. One that leaves a buffer
      either is close to the end of the output or makes the careful loop leave it too. */
  lemma FastStepRefines(inp: seq<byte>, i: nat, out: seq<byte>, cap: nat)
    requires i + FAST_PHASE_PADDING < |inp| <= MAX_SIZE && FAST_PHASE_PADDING < cap <= MAX_SIZE && |out| <= cap
    ensures match FastStep(inp, i, out, cap)
      case Break => true
      case Fault =>
        || TokenStep(inp, i, out, cap) == Leave
        || |out| + 16 > cap
        || (|out| + 34 > cap && |out| + 14 >= WINDOW_SIZE)
      case Next(i', out') =>
        && TokenStep(inp, i, out, cap) == More(i', out')
        && (|out| <= cap - FAST_PHASE_PADDING && cap < HOT_OUTPUT ==> |out'| <= cap - FAST_PHASE_PADDING)
  {
    hide ReadSize, CopyMatch, Offset, High, Low, FastMatch, MatchStep, FastLiterals;
    LiteralsRefine(inp, i, out, cap);
    var lits := FastLiterals(inp, i, |out|, cap);
    if lits.Lits? {
      var limit := |inp| - FAST_PHASE_PADDING;
      var j, m := lits.start + lits.size, Low(inp[i]);
      var field := ReadSize(inp, limit, m, j + 2);
      ShortField(inp, limit, m, j + 2);
      if field.Ext? { LimitedRead(inp, limit, m, j + 2); }
      MatchRefines(out + inp[lits.start..j], m < 15, Offset(inp[j], inp[j + 1]), field, cap);
    }
  }

  lemma ShortField(inp: seq<byte>, limit: nat, field: nat, i: nat)
    ensures field < 15 ==> ReadSize(inp, limit, field, i) == Ext(field, i)
  {
  }

  lemma {:induction false} RunRefines(inp: seq<byte>, i: nat, out: seq<byte>, cap: nat)
    requires |inp| <= MAX_SIZE && FAST_PHASE_PADDING < cap <= MAX_SIZE && |out| <= cap
    ensures FastRun(inp, i, out, cap) == Decode(inp, i, out, cap) || FastRun(inp, i, out, cap) == Stray
    decreases |inp| - i
  {
    hide TokenStep, FastStep;
    if i + FAST_PHASE_PADDING < |inp| {
      FastStepRefines(inp, i, out, cap);
      var r := FastStep(inp, i, out, cap);
      if r.Next? { RunRefines(inp, r.i, r.out, cap); }
    }
  }

  /** With an output below `HOT_OUTPUT` every match is checked, and the padding covers the rest. */
  lemma {:induction false} SmallRunAgrees(inp: seq<byte>, i: nat, out: seq<byte>, cap: nat)
    requires |inp| <= MAX_SIZE && FAST_PHASE_PADDING < cap < HOT_OUTPUT && |out| <= cap - FAST_PHASE_PADDING
    ensures FastRun(inp, i, out, cap) == Decode(inp, i, out, cap)
    decreases |inp| - i
  {
    hide TokenStep, FastStep;
    if i + FAST_PHASE_PADDING < |inp| {
      FastStepRefines(inp, i, out, cap);
      var r := FastStep(inp, i, out, cap);
      if r.Next? { SmallRunAgrees(inp, r.i, r.out, cap); }
    }
  }

  /** Where no size wraps around, the rest of an accepted stream yields more output than the fast
      phase can be short of. */
  lemma {:induction false} PlainRunAgrees(inp: seq<byte>, i: nat, out: seq<byte>, cap: nat)
    requires |inp| <= MAX_SIZE && FAST_PHASE_PADDING < cap <= MAX_SIZE && |out| <= cap
    requires PlainSizes(inp, i, out, cap) && Decode(inp, i, out, cap).Ok?
    ensures FastRun(inp, i, out, cap) == Decode(inp, i, out, cap)
    decreases |inp| - i
  {
    hide TokenStep, FastStep, PlainToken;
    if i + FAST_PHASE_PADDING < |inp| {
      FastStepRefines(inp, i, out, cap);
      DecodeYield(inp, i, out, cap);
      var r := FastStep(inp, i, out, cap);
      if r.Next? { PlainRunAgrees(inp, r.i, r.out, cap); }
    }
  }

  /** On every input the two phases together give the careful loop's result or leave a buffer. */
  lemma TwoPhaseRefines(inp: seq<byte>, cap: nat)
    requires |inp| <= MAX_SIZE && cap <= MAX_SIZE
    ensures TwoPhase(inp, cap) == Decode(inp, 0, [], cap) || TwoPhase(inp, cap) == Stray
  {
    if FAST_PHASE_PADDING < cap { RunRefines(inp, 0, [], cap); }
  }

  /** They give exactly its result on every stream it accepts in which no size wraps around. */
  lemma PlainAgrees(inp: seq<byte>, cap: nat)
    requires |inp| <= MAX_SIZE && cap <= MAX_SIZE && PlainSizes(inp, 0, [], cap) && Decode(inp, 0, [], cap).Ok?
    ensures TwoPhase(inp, cap) == Decode(inp, 0, [], cap)
  {
    if FAST_PHASE_PADDING < cap { PlainRunAgrees(inp, 0, [], cap); }
  }

  /** And on every stream, accepted or not, if the output is small. */
  lemma SmallAgrees(inp: seq<byte>, cap: nat)
    requires |inp| <= MAX_SIZE && cap < HOT_OUTPUT
    ensures TwoPhase(inp, cap) == Decode(inp, 0, [], cap)
  {
    if FAST_PHASE_PADDING < cap { SmallRunAgrees(inp, 0, [], cap); }
  }

  /** Both decoders invert the encoder. */
  lemma EncodedAgrees(ts: seq<Token>, lits: seq<byte>, cap: nat)
    requires AllValid(ts) && Grounded(ts, 0) && |Expand(ts, [])| + |lits| <= cap <= MAX_SIZE
    ensures Decode(Encode(ts, lits), 0, [], cap) == Ok(Expand(ts, []) + lits)
    ensures |Encode(ts, lits)| <= MAX_SIZE ==> TwoPhase(Encode(ts, lits), cap) == Ok(Expand(ts, []) + lits)
  {
    hide Decode, PlainSizes, TwoPhase, Encode, Expand, Grounded;
    var s := Encode(ts, lits);
    assert At(s, 0, s);
    DecodeEncoded(s, 0, ts, lits, [], cap);
    PlainEncoded(s, 0, ts, lits, [], cap);
    if |s| <= MAX_SIZE { PlainAgrees(s, cap); }
  }

  // ---- the exact capacity ----

  lemma StepWithLess(inp: seq<byte>, i: nat, out: seq<byte>, cap: nat, n: nat)
    requires |out| <= n <= cap <= MAX_SIZE
    ensures match TokenStep(inp, i, out, cap)
      case Last(o) => |o| <= n ==> TokenStep(inp, i, out, n) == Last(o)
      case More(next, o) => |o| <= n ==> TokenStep(inp, i, out, n) == More(next, o)
      case _ => true
  {
    hide ReadSize, Offset, High, Low, CopyMatch;
  }

  lemma {:induction false} DecodeWithLess(inp: seq<byte>, i: nat, out: seq<byte>, cap: nat, n: nat)
    requires n <= cap <= MAX_SIZE && Decode(inp, i, out, cap).Ok? && |Decode(inp, i, out, cap).out| <= n
    ensures Decode(inp, i, out, n) == Decode(inp, i, out, cap)
    ensures PlainSizes(inp, i, out, cap) ==> PlainSizes(inp, i, out, n)
    decreases |inp| - i
  {
    hide TokenStep, PlainToken;
    StepWithLess(inp, i, out, cap, n);
    var r := TokenStep(inp, i, out, cap);
    if r.More? { DecodeWithLess(inp, r.next, r.out, cap, n); }
  }

  /** What an accepted stream stands for is also the capacity it needs. */
  lemma ExactSizeSuffices(inp: seq<byte>, cap: nat)
    requires |inp| <= MAX_SIZE && cap <= MAX_SIZE && PlainSizes(inp, 0, [], cap) && Decode(inp, 0, [], cap).Ok?
    ensures TwoPhase(inp, |Decode(inp, 0, [], cap).out|) == Decode(inp, 0, [], cap)
  {
    hide Decode, PlainSizes, TwoPhase;
    var n := |Decode(inp, 0, [], cap).out|;
    DecodeWithLess(inp, 0, [], cap, n);
    PlainAgrees(inp, n);
  }
}
