/**
 The decompressor's loops over arrays, each proved to compute what `Lz4Format` and `Lz4Phases`
 say on values. An access outside a buffer, undefined in the source, is the outcome `OutOfBounds`,
 reported before the access.
 */
module Lz4Decompress {
  import opened Lz4Format
  import opened Lz4Phases

  datatype Outcome = Length(size: nat) | Failed(error: Error) | OutOfBounds

  /** Reads an extended size in 32-bit arithmetic; zero means that there is none. */
  method ReadLongSize(inp: seq<byte>, limit: nat, i: nat, skipFirstCheck: bool) returns (size: nat, next: nat)
    requires limit <= |inp| && (skipFirstCheck ==> i < |inp|)
    ensures size == 0 <==> (!skipFirstCheck && i >= limit) || ReadLong(inp, limit, i).Missing?
    ensures size != 0 ==> ReadLong(inp, limit, i) == Ext(size, next)
  {
    if !skipFirstCheck && i >= limit {
      return 0, i;
    }
    next := i;
    size := inp[next];
    ghost var total: nat := size;
    while inp[next] == 255
      invariant i <= next < |inp| && (next == i || next < limit)
      invariant size == Word(total) && inp[next] as int <= total
      invariant (ReadExt(inp, i).Missing? && ReadExt(inp, next).Missing?)
             || (ReadExt(inp, next).Ext? && ReadExt(inp, i) == Ext(ReadExt(inp, next).sum + total - inp[next], ReadExt(inp, next).next))
      decreases |inp| - next
    {
      next := next + 1;
      if next >= limit {
        return 0, next;
      }
      WordSum(total, inp[next]);
      size, total := Word(size + inp[next]), total + inp[next];
    }
    WordSum(total, 15);
    next := next + 1;
    size := Word(size + 15);
  }

  /** A four-bit field and its extension, as both loops read it. */
  method ReadField(inp: seq<byte>, limit: nat, field: nat, i: nat, skipFirstCheck: bool) returns (r: Ext)
    requires limit <= |inp| && (if skipFirstCheck then i < |inp| else limit == |inp|)
    ensures r == ReadSize(inp, limit, field, i)
  {
    if field < 15 { return Ext(field, i); }
    var size, next := ReadLongSize(inp, limit, i, skipFirstCheck);
    r := if size == 0 then Missing else Ext(size, next);
  }

  /** Where a token took the decoder. */
  datatype Moved = Stopped(outcome: Outcome) | Moved(i: nat, o: nat)

  ghost predicate Starts(buffer: seq<byte>, bytes: seq<byte>) {
    |bytes| <= |buffer| && buffer[..|bytes|] == bytes
  }

  /** The buffer and the position agree with a step on values. */
  ghost predicate Reached(r: Moved, step: Step, buffer: seq<byte>) {
    match step
    case Fail(e) => r == Stopped(Failed(e))
    case Leave => r == Stopped(OutOfBounds)
    case Last(bytes) => r == Stopped(Length(|bytes|)) && Starts(buffer, bytes)
    case More(next, bytes) => r == Moved(next, |bytes|) && Starts(buffer, bytes)
  }

  /** One round of the careful loop. */
  method CarefulToken(out: array<byte>, inp: seq<byte>, i: nat, o: nat) returns (r: Moved)
    requires i <= |inp| && o <= out.Length
    modifies out
    ensures Reached(r, TokenStep(inp, i, old(out[..o]), out.Length), out[..])
  {
    hide ReadSize, CopyMatch, High, Low, Offset, Word, MatchStep;
    ghost var before := out[..o];
    if i >= |inp| { return Stopped(Failed(InputTooSmall)); }
    var lits := ReadField(inp, |inp|, High(inp[i]), i + 1, false);
    if lits.Missing? { return Stopped(Failed(InputTooSmall)); }
    var n, inI := lits.sum, lits.next;
    if Word(inI + n) > |inp| || Word(o + n) > out.Length {
      return Stopped(Failed(if Word(o + n) > out.Length then OutputTooSmall else InputTooSmall));
    }
    if inI + n > |inp| || o + n > out.Length { return Stopped(OutOfBounds); }
    forall k | 0 <= k < n { out[o + k] := inp[inI + k]; }
    assert out[..o + n] == before + inp[inI..inI + n];
    inI := inI + n;
    if inI == |inp| { return Stopped(Length(o + n)); }
    if inI + 2 > |inp| { return Stopped(Failed(InputTooSmall)); }
    var size := ReadField(inp, |inp|, Low(inp[i]), inI + 2, false);
    r := CarefulMatch(out, o + n, Offset(inp[inI], inp[inI + 1]), size);
  }

  /** Its match, after the literals. */
  method CarefulMatch(out: array<byte>, o: nat, offset: nat, field: Ext) returns (r: Moved)
    requires o <= out.Length
    modifies out
    ensures Reached(r, MatchStep(old(out[..o]), offset, field, out.Length), out[..])
  {
    hide CopyMatch, Word;
    if field.Missing? { return Stopped(Failed(InputTooSmall)); }
    var size := Word(field.sum + MIN_MATCH);
    if offset > o || offset == 0 || Word(o + size) > out.Length {
      return Stopped(Failed(if Word(o + size) > out.Length then OutputTooSmall
                            else if offset > o then OffsetBiggerThanPos else OffsetZero));
    }
    if o + size > out.Length { return Stopped(OutOfBounds); }
    CopyBytewise(out, o, offset, size);
    return Moved(field.next, o + size);
  }

  /** The result on values is in the buffer. */
  ghost predicate Delivered(r: Outcome, result: Result, buffer: seq<byte>) {
    match result
    case Ok(bytes) => r == Length(|bytes|) && Starts(buffer, bytes)
    case Err(e) => r == Failed(e)
    case Stray => r == OutOfBounds
  }

  /** The careful loop, from token position `i` with `o` bytes of output already in place. */
  method Careful(out: array<byte>, inp: seq<byte>, i: nat, o: nat) returns (r: Outcome)
    requires i <= |inp| && o <= out.Length
    modifies out
    ensures Delivered(r, Decode(inp, i, old(out[..o]), out.Length), out[..])
  {
    hide TokenStep;
    var inI: nat, outI: nat := i, o;
    while true
      invariant inI <= |inp| && outI <= out.Length
      invariant Decode(inp, inI, out[..outI], out.Length) == Decode(inp, i, old(out[..o]), out.Length)
      decreases |inp| - inI
    {
      var moved := CarefulToken(out, inp, inI, outI);
      match moved
      case Stopped(outcome) => return outcome;
      case Moved(i', o') =>
        inI, outI := i', o';
        assert out[..outI] == out[..][..outI];
    }
  }

  /** The match copy of the careful loop, one byte at a time. */
  method CopyBytewise(out: array<byte>, o: nat, offset: nat, size: nat)
    requires 0 < offset <= o && o + size <= out.Length
    modifies out
    ensures out[..o + size] == CopyMatch(old(out[..o]), offset, size)
  {
    var i := 0;
    while i < size
      invariant i <= size && out[..o] == old(out[..o])
      invariant forall k :: o <= k < o + i ==> out[k] == out[k - offset]
    {
      out[o + i] := out[o - offset + i];
      i := i + 1;
    }
    assert out[..o + size][..o] == out[..o];
    CopyMatchIs(old(out[..o]), offset, size, out[..o + size]);
  }

  // ---- the fast phase ----

  /** Literals in 32-byte chunks; up to 31 bytes past the end are overwritten too. */
  method CopyLiteralChunks(out: array<byte>, inp: seq<byte>, o: nat, j: nat, n: nat)
    requires o + n + FAST_PHASE_PADDING <= out.Length && j + n + FAST_PHASE_PADDING <= |inp|
    modifies out
    ensures out[..o + n] == old(out[..o]) + inp[j..j + n]
  {
    var i := 0;
    while i < n
      invariant 0 <= i < n + 32 && out[..o] == old(out[..o])
      invariant forall k :: o <= k < o + i ==> out[k] == inp[k - o + j]
    {
      forall k | 0 <= k < 32 { out[o + i + k] := inp[j + i + k]; }
      i := i + 32;
    }
  }

  /** A match that does not overlap itself, in 32-byte chunks. */
  method CopyMatchChunks(out: array<byte>, o: nat, offset: nat, size: nat)
    requires size <= offset <= o && 0 < offset && o + size + FAST_PHASE_PADDING <= out.Length
    modifies out
    ensures out[..o + size] == CopyMatch(old(out[..o]), offset, size)
  {
    var i := 0;
    while i < size
      invariant 0 <= i < size + 32 && out[..o] == old(out[..o])
      invariant forall k :: o <= k < o + i && k < o + size ==> out[k] == out[k - offset]
    {
      forall k | 0 <= k < 32 { out[o + i + k] := out[o - offset + i + k]; }
      assert forall k :: 0 <= k < o ==> out[k] == out[..o][k];
      i := i + 32;
    }
    assert out[..o + size][..o] == out[..o];
    CopyMatchIs(old(out[..o]), offset, size, out[..o + size]);
  }

  /** A short match as copies of 8, 8 and 4 bytes: right for every offset of at least 8. */
  method CopyShortMatch(out: array<byte>, o: nat, offset: nat, size: nat)
    requires 8 <= offset <= o && size <= 18 && o + 20 <= out.Length
    modifies out
    ensures out[..o + size] == CopyMatch(old(out[..o]), offset, size)
  {
    forall k | 0 <= k < 8 { out[o + k] := out[o - offset + k]; }
    assert forall k :: o <= k < o + 8 ==> out[k] == out[k - offset];
    forall k | 0 <= k < 8 { out[o + 8 + k] := out[o - offset + 8 + k]; }
    assert forall k :: o <= k < o + 16 ==> out[k] == out[k - offset];
    forall k | 0 <= k < 4 { out[o + 16 + k] := out[o - offset + 16 + k]; }
    assert forall k :: o <= k < o + 20 ==> out[k] == out[k - offset];
    assert out[..o] == old(out[..o]);
    assert out[..o + size][..o] == out[..o];
    CopyMatchIs(old(out[..o]), offset, size, out[..o + size]);
  }

  /** Where a fast-phase token took the decoder. */
  datatype FastMoved = Stop | Outside | On(i: nat, o: nat)

  /** The buffer and the position agree with a fast step on values. */
  ghost predicate FastReached(r: FastMoved, move: FastMove, buffer: seq<byte>) {
    match move
    case Break => r == Stop
    case Fault => r == Outside
    case Next(i, bytes) => r == On(i, |bytes|) && Starts(buffer, bytes)
  }

  /** The literals of a fast-phase token. */
  method CopyLiterals(out: array<byte>, inp: seq<byte>, i: nat, o: nat) returns (r: FastLits)
    requires i + FAST_PHASE_PADDING < |inp| && o <= out.Length && FAST_PHASE_PADDING < out.Length
    modifies out
    ensures r == FastLiterals(inp, i, o, out.Length) && out[..o] == old(out[..o])
    ensures r.Lits? ==> out[..o + r.size] == old(out[..o]) + inp[r.start..r.start + r.size]
  {
    hide ReadSize, Word;
    var n := High(inp[i]);
    if n == 15 {
      var inSize, outSize := |inp| - FAST_PHASE_PADDING, out.Length - FAST_PHASE_PADDING;
      var lits := ReadField(inp, inSize, n, i + 1, true);
      if lits.Missing? || Word(lits.next + lits.sum) > inSize || Word(o + lits.sum) > outSize { return LitsBreak; }
      if lits.next + lits.sum > inSize || o + lits.sum > outSize { return LitsFault; }
      CopyLiteralChunks(out, inp, o, lits.next, lits.sum);
      assert out[..o] == out[..o + lits.sum][..o];
      return Lits(lits.next, lits.sum);
    }
    if o + 16 > out.Length { return LitsFault; }
    forall k | 0 <= k < 16 { out[o + k] := inp[i + 1 + k]; }
    return Lits(i + 1, n);
  }

  /** The match of a fast-phase token. */
  method CopyFastMatch(out: array<byte>, o: nat, short: bool, offset: nat, field: Ext) returns (r: FastMoved)
    requires o <= out.Length && FAST_PHASE_PADDING < out.Length
    requires offset <= WINDOW_SIZE && (short && field.Ext? ==> field.sum < 15)
    modifies out
    ensures FastReached(r, FastMatch(old(out[..o]), short, offset, field, out.Length), out[..])
    ensures out[..o] == old(out[..o])
  {
    hide CopyMatch, Word;
    if field.Missing? { return Stop; }
    if short && offset >= 8 && o >= WINDOW_SIZE {
      if o + 20 > out.Length { return Outside; }
      CopyShortMatch(out, o, offset, field.sum + MIN_MATCH);
      PrefixKept(out[..], o, old(out[..o]), offset, field.sum + MIN_MATCH);
      return On(field.next, o + field.sum + MIN_MATCH);
    }
    var size := Word(field.sum + MIN_MATCH);
    if offset > o || offset == 0 || Word(o + size) > out.Length - FAST_PHASE_PADDING { return Stop; }
    if o + size > out.Length - FAST_PHASE_PADDING { return Outside; }
    if size <= offset {
      CopyMatchChunks(out, o, offset, size);
    } else {
      CopyBytewise(out, o, offset, size);
    }
    PrefixKept(out[..], o, old(out[..o]), offset, size);
    return On(field.next, o + size);
  }

  lemma {:induction false} CopyBytesPrefix(out: seq<byte>, offset: nat, n: nat)
    requires 0 < offset <= |out|
    ensures CopyBytes(out, offset, n)[..|out|] == out
    decreases n
  {
    if n > 0 {
      var more := out + [out[|out| - offset]];
      CopyBytesPrefix(more, offset, n - 1);
      assert CopyBytes(more, offset, n - 1)[..|out|] == CopyBytes(more, offset, n - 1)[..|more|][..|out|];
    }
  }

  lemma PrefixKept(buffer: seq<byte>, o: nat, before: seq<byte>, offset: nat, n: nat)
    requires |before| == o && 0 < offset <= o && o + n <= |buffer| && buffer[..o + n] == CopyMatch(before, offset, n)
    ensures buffer[..o] == before
  {
    CopyBytesPrefix(before, offset, n);
    assert buffer[..o] == buffer[..o + n][..o];
  }

  /** One round of the fast loop. */
  method FastToken(out: array<byte>, inp: seq<byte>, i: nat, o: nat) returns (r: FastMoved)
    requires i + FAST_PHASE_PADDING < |inp| && o <= out.Length && FAST_PHASE_PADDING < out.Length
    modifies out
    ensures FastReached(r, FastStep(inp, i, old(out[..o]), out.Length), out[..])
    ensures out[..o] == old(out[..o])
  {
    hide Offset, FastMatch, FastLiterals, ReadSize, High, Low;
    var lits := CopyLiterals(out, inp, i, o);
    match lits
    case LitsBreak => return Stop;
    case LitsFault => return Outside;
    case Lits(start, n) =>
      var j, field := start + n, Low(inp[i]);
      assert out[..o] == out[..o + n][..o];
      ShortField(inp, |inp| - FAST_PHASE_PADDING, field, j + 2);
      var size := ReadField(inp, |inp| - FAST_PHASE_PADDING, field, j + 2, true);
      r := CopyFastMatch(out, o + n, field < 15, Offset(inp[j], inp[j + 1]), size);
      assert out[..o] == out[..o + n][..o];
  }

  /** The fast loop: the careful one takes over at the token it stops at. */
  method FastPhase(out: array<byte>, inp: seq<byte>) returns (i: nat, o: nat, outside: bool)
    requires |inp| > FAST_PHASE_PADDING && out.Length > FAST_PHASE_PADDING
    modifies out
    ensures i <= |inp| && o <= out.Length
    ensures FastRun(inp, 0, [], out.Length) == if outside then Stray else Decode(inp, i, out[..o], out.Length)
  {
    hide FastStep;
    i, o, outside := 0, 0, false;
    while i < |inp| - FAST_PHASE_PADDING
      invariant i <= |inp| && o <= out.Length && !outside
      invariant FastRun(inp, i, out[..o], out.Length) == FastRun(inp, 0, [], out.Length)
      decreases |inp| - i
    {
      var move := FastToken(out, inp, i, o);
      match move
      case Stop => return;
      case Outside => outside := true; return;
      case On(i', o') =>
        i, o := i', o';
        assert out[..o] == out[..][..o];
    }
  }

  /** Decompression computes what the two phases give on values. */
  method Decompress(out: array<byte>, inp: seq<byte>) returns (r: Outcome)
    modifies out
    ensures Delivered(r, TwoPhase(inp, out.Length), out[..])
  {
    if |inp| > MAX_SIZE || out.Length > MAX_SIZE {
      return Failed(InvalidParams);
    }
    var i, o, outside := 0, 0, false;
    assert out[..0] == [];
    if |inp| > FAST_PHASE_PADDING && out.Length > FAST_PHASE_PADDING {
      i, o, outside := FastPhase(out, inp);
      if outside { return OutOfBounds; }
    }
    r := Careful(out, inp, i, o);
  }
}
