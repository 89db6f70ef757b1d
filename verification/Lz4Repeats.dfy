/**
 What the compressor does not miss: the longest match in reach is found, every repeat that pays is taken, and an input
 that repeats itself shrinks to its first period and a few bytes.
 */
module Lz4Repeats {
  import opened Arith
  import opened Lz4Format
  import opened Lz4Tokens
  import opened Lz4Compress

  // ---- the comparison ----

  lemma {:induction false} CommonDiffers(inp: seq<byte>, a: nat, b: nat, k: nat)
    requires k <= 8 && a + 8 <= |inp| && b + 8 <= |inp| && Common(inp, a, b, k) < 8
    ensures var c := Common(inp, a, b, k); inp[a + c] != inp[b + c]
    decreases 8 - k
  {
    if inp[a + k] == inp[b + k] { CommonDiffers(inp, a, b, k + 1); }
  }

  lemma DifferenceEnds(inp: seq<byte>, i: nat, pos: nat, m: nat, n: nat)
    requires i + m + 8 <= |inp| && pos + m + 8 <= |inp| && Agree(inp, i, pos, n)
    requires FirstDifference(inp, i + m, pos + m) < 8
    ensures n <= m + FirstDifference(inp, i + m, pos + m)
  {
    hide Agree;
    var c := m + FirstDifference(inp, i + m, pos + m);
    CommonDiffers(inp, i + m, pos + m, 0);
    if c < n { AgreeAt(inp, i, pos, n, c); }
  }

  lemma AgreeAt(inp: seq<byte>, a: nat, b: nat, n: nat, c: nat)
    requires Agree(inp, a, b, n) && c < n
    ensures a + n <= |inp| && b + n <= |inp| && inp[a + c] == inp[b + c]
  {
    assert inp[a..a + n][c] == inp[b..b + n][c];
  }

  /** The comparison stops at the first difference or where matches have to end. */
  lemma {:induction false} MatchIsMaximal(inp: seq<byte>, i: nat, pos: nat, m: nat, n: nat)
    requires pos <= i && END_BLOCK_RESERVED <= |inp| && Agree(inp, i, pos, n)
    ensures var r := MatchLength(inp, i, pos, m); n <= r || i + r > |inp| - END_BLOCK_RESERVED
    decreases |inp| + 8 - i - m
  {
    hide Agree, FirstDifference;
    if i + m <= |inp| - END_BLOCK_RESERVED {
      if FirstDifference(inp, i + m, pos + m) < 8 {
        DifferenceEnds(inp, i, pos, m, n);
      } else {
        MatchIsMaximal(inp, i, pos, m + 8, n);
      }
    }
  }

  // ---- the search ----

  /** The `k`-th newest position in bucket `h`. */
  function Entry(tbl: Table, p: Params, h: nat, k: nat): nat
    requires ValidParams(p) && ValidTable(tbl, p) && h < Pow2(p.hashBits) && k < Pow2(p.bucketBits)
  {
    EntryBound(h, tbl.last[h], Pow2(p.hashBits), Pow2(p.bucketBits), k);
    tbl.slots[EntryAt(h, tbl.last[h], Pow2(p.bucketBits), k)]
  }

  predicate InWindow(pos: nat, i: nat) {
    pos <= i <= pos + WINDOW_SIZE
  }

  /** The search gets to the `k`-th entry: neither it nor a newer one is too far back. */
  ghost predicate InReach(tbl: Table, p: Params, h: nat, k: nat, i: nat)
    requires ValidParams(p) && ValidTable(tbl, p) && h < Pow2(p.hashBits)
  {
    k < Pow2(p.bucketBits) && forall j: nat | j <= k :: InWindow(Entry(tbl, p, h, j), i)
  }

  lemma WindowTest(pos: nat, i: nat)
    requires i <= MAX_SIZE
    ensures OutOfWindow(pos, i) <==> !InWindow(pos, i) || pos > i
  {
  }

  lemma {:induction false} SearchIsLongest(inp: seq<byte>, i: nat, tbl: Table, p: Params, h: nat, k0: nat, best: Found, k: nat)
    requires ValidParams(p) && ValidTable(tbl, p) && h < Pow2(p.hashBits) && END_BLOCK_RESERVED <= |inp| && i <= MAX_SIZE
    ensures Search(inp, i, tbl, p, h, k0, best).size >= best.size
    ensures k0 <= k && InReach(tbl, p, h, k, i) ==>
              Search(inp, i, tbl, p, h, k0, best).size >= MatchLength(inp, i, Entry(tbl, p, h, k), 0)
    decreases Pow2(p.bucketBits) - k0
  {
    hide Pow2, ValidTable, EntryAt, OutOfWindow;
    if k0 < Pow2(p.bucketBits) {
      var pos := Entry(tbl, p, h, k0);
      WindowTest(pos, i);
      if !OutOfWindow(pos, i) {
        var size := MatchLength(inp, i, pos, 0);
        SearchIsLongest(inp, i, tbl, p, h, k0 + 1, if best.size < size then Found(pos, size) else best, k);
      }
    }
  }

  /** The match found at `i` is at least as long as the agreement with any entry in reach, as far as matches may go. */
  lemma LongestIsFound(inp: seq<byte>, i: nat, tbl: Table, p: Params, h: nat, k: nat, n: nat)
    requires ValidParams(p) && ValidTable(tbl, p) && h < Pow2(p.hashBits) && END_BLOCK_RESERVED <= |inp| <= MAX_SIZE
    requires i + n <= |inp| - END_BLOCK_RESERVED && InReach(tbl, p, h, k, i) && Agree(inp, i, Entry(tbl, p, h, k), n)
    ensures Search(inp, i, tbl, p, h, 0, Found(0, 0)).size >= n
  {
    hide Pow2, ValidTable, Search, Agree;
    SearchIsLongest(inp, i, tbl, p, h, 0, Found(0, 0), k);
    MatchIsMaximal(inp, i, Entry(tbl, p, h, k), 0, n);
  }

  /** A repeat in reach that is long enough and pays for its literals is taken, at its full length or more. */
  lemma RepeatIsTaken(inp: seq<byte>, i: nat, last: nat, tbl: Table, p: Params, k: nat, n: nat)
    requires ValidParams(p) && ValidTable(tbl, p) && last <= i && i + END_BLOCK_RESERVED < |inp| <= MAX_SIZE
    requires InReach(tbl, p, Hash(inp, i, p.hashBits), k, i)
    requires Agree(inp, i, Entry(tbl, p, Hash(inp, i, p.hashBits), k), n) && i + n <= |inp| - END_BLOCK_RESERVED
    requires n >= MIN_MATCH && n > (i - last) / 255 + 1
    ensures MoveAt(inp, i, last, tbl, p).Emit? && MoveAt(inp, i, last, tbl, p).token.size >= n
  {
    hide Hash, Search, Insert, InsertSkipped, ValidTable, InReach, Agree, Pow2;
    LongestIsFound(inp, i, tbl, p, Hash(inp, i, p.hashBits), k, n);
  }

  // ---- what the table remembers at speed one ----

  /** The positions before `i` with the given hash, newest first. */
  function Recent(inp: seq<byte>, bits: nat, i: nat, h: nat): (r: seq<nat>)
    requires i + 3 <= |inp| && bits <= 32
    ensures forall k | 0 <= k < |r| :: r[k] < i
  {
    if i == 0 then []
    else if Hash(inp, i - 1, bits) == h then [i - 1] + Recent(inp, bits, i - 1, h)
    else Recent(inp, bits, i - 1, h)
  }

  function NewestOr(r: seq<nat>, k: nat): nat {
    if k < |r| then r[k] else NONE
  }

  /** Every bucket holds the newest positions of its hash. */
  ghost predicate Remembers(inp: seq<byte>, tbl: Table, p: Params, i: nat)
    requires ValidParams(p) && ValidTable(tbl, p) && i + 3 <= |inp|
  {
    forall h: nat, k: nat | h < Pow2(p.hashBits) && k < Pow2(p.bucketBits) ::
      Entry(tbl, p, h, k) == NewestOr(Recent(inp, p.hashBits, i, h), k)
  }

  /** The slot before `last`, going round. */
  lemma BackIs(last: nat, b: nat, k: nat)
    requires last < b && k < b
    ensures (last + b - k - 1) % b == if k < last then last - k - 1 else last + b - k - 1
  {
    var x := last + b - k - 1;
    if k < last { QuotientUnique(b, x, 1, last - k - 1); } else { QuotientUnique(b, x, 0, x); }
  }

  lemma NextIs(last: nat, b: nat)
    requires last < b
    ensures (last + 1) % b == if last + 1 < b then last + 1 else 0
  {
    if last + 1 < b { QuotientUnique(b, last + 1, 0, last + 1); } else { QuotientUnique(b, last + 1, 1, 0); }
  }

  /** After an insertion the new entry is the newest and the others are one older. */
  lemma EntryMoves(h: nat, last: nat, b: nat, k: nat)
    requires last < b && k < b
    ensures EntryAt(h, (last + 1) % b, b, k) == if k == 0 then h * b + last else EntryAt(h, last, b, k - 1)
    ensures k > 0 ==> EntryAt(h, last, b, k - 1) != h * b + last
  {
    NextIs(last, b);
    BackIs((last + 1) % b, b, k);
    if k > 0 { BackIs(last, b, k - 1); }
  }

  lemma BucketsApart(h: nat, x: nat, h': nat, x': nat, b: nat)
    requires x < b && x' < b && h != h'
    ensures h * b + x != h' * b + x'
  {
    if h < h' { SlotBound(h, x, h', b); } else { SlotBound(h', x', h, b); }
  }

  lemma InsertedEntry(tbl: Table, p: Params, h: nat, pos: nat, h': nat, k: nat)
    requires ValidParams(p) && ValidTable(tbl, p) && h < Pow2(p.hashBits) && h' < Pow2(p.hashBits) && k < Pow2(p.bucketBits)
    ensures Entry(Insert(tbl, p, h, pos), p, h', k) ==
            if h' != h then Entry(tbl, p, h', k) else if k == 0 then pos else Entry(tbl, p, h, k - 1)
  {
    hide Pow2;
    var b := Pow2(p.bucketBits);
    SlotBound(h, tbl.last[h], Pow2(p.hashBits), b);
    EntryBound(h', tbl.last[h'], Pow2(p.hashBits), b, k);
    if h' == h {
      EntryMoves(h, tbl.last[h], b, k);
      if k > 0 { EntryBound(h, tbl.last[h], Pow2(p.hashBits), b, k - 1); }
    } else {
      BucketsApart(h', (tbl.last[h'] + b - k - 1) % b, h, tbl.last[h], b);
    }
  }

  lemma InsertRemembers(inp: seq<byte>, tbl: Table, p: Params, i: nat)
    requires ValidParams(p) && ValidTable(tbl, p) && i + 4 <= |inp| && Remembers(inp, tbl, p, i)
    ensures Remembers(inp, Insert(tbl, p, Hash(inp, i, p.hashBits), i), p, i + 1)
  {
    hide Pow2, ValidTable, Insert, Hash, Entry;
    var h := Hash(inp, i, p.hashBits);
    forall h': nat, k: nat | h' < Pow2(p.hashBits) && k < Pow2(p.bucketBits)
      ensures Entry(Insert(tbl, p, h, i), p, h', k) == NewestOr(Recent(inp, p.hashBits, i + 1, h'), k)
    {
      InsertedEntry(tbl, p, h, i, h', k);
    }
  }

  lemma {:induction false} SkippedRemembers(inp: seq<byte>, i: nat, size: nat, k: nat, tbl: Table, p: Params)
    requires ValidParams(p) && p.speed == 1 && ValidTable(tbl, p) && i + size + 4 <= |inp| && k <= size
    requires Remembers(inp, tbl, p, i + k)
    ensures Remembers(inp, InsertSkipped(inp, i, size, k, tbl, p), p, i + size)
    decreases size - k
  {
    hide ValidTable, Insert, Hash, Remembers;
    if k < size {
      InsertRemembers(inp, tbl, p, i + k);
      SkippedRemembers(inp, i, size, k + 1, Insert(tbl, p, Hash(inp, i + k, p.hashBits), i + k), p);
    }
  }

  lemma MoveRemembers(inp: seq<byte>, i: nat, last: nat, tbl: Table, p: Params)
    requires ValidParams(p) && p.speed == 1 && ValidTable(tbl, p) && last <= i && i + END_BLOCK_RESERVED < |inp|
    requires Remembers(inp, tbl, p, i)
    ensures match MoveAt(inp, i, last, tbl, p)
      case Skip(tbl1) => Remembers(inp, tbl1, p, i + 1)
      case Emit(t, tbl1) => Remembers(inp, tbl1, p, i + t.size)
  {
    hide ValidTable, Insert, Hash, Remembers, Search, InsertSkipped;
    InsertRemembers(inp, tbl, p, i);
    var m := MoveAt(inp, i, last, tbl, p);
    if m.Emit? { SkippedRemembers(inp, i, m.token.size, 1, Insert(tbl, p, Hash(inp, i, p.hashBits), i), p); }
  }

  lemma EmptyRemembers(inp: seq<byte>, p: Params)
    requires ValidParams(p) && |inp| >= 3
    ensures Remembers(inp, EmptyTable(p), p, 0)
  {
    hide Pow2;
    forall h: nat, k: nat | h < Pow2(p.hashBits) && k < Pow2(p.bucketBits) ensures Entry(EmptyTable(p), p, h, k) == NONE {
      EntryBound(h, EmptyTable(p).last[h], Pow2(p.hashBits), Pow2(p.bucketBits), k);
    }
  }

  // ---- repeats of the input itself ----

  /** A position `d` back with the same hash is among the `d` newest of its bucket, with only newer ones before it. */
  lemma {:induction false} RecentHas(inp: seq<byte>, bits: nat, i: nat, j: nat) returns (k: nat)
    requires i + 3 <= |inp| && bits <= 32 && j < i
    ensures var r := Recent(inp, bits, i, Hash(inp, j, bits));
      k < |r| && k < i - j && r[k] == j && forall x | 0 <= x <= k :: j <= r[x] < i
    decreases i
  {
    hide Hash;
    if j == i - 1 {
      k := 0;
    } else {
      k := RecentHas(inp, bits, i - 1, j);
      if Hash(inp, i - 1, bits) == Hash(inp, j, bits) { k := k + 1; }
    }
  }

  lemma SameHash(inp: seq<byte>, i: nat, j: nat, bits: nat)
    requires i + 4 <= |inp| && j + 4 <= |inp| && bits <= 32 && inp[i..i + 4] == inp[j..j + 4]
    ensures Hash(inp, i, bits) == Hash(inp, j, bits)
  {
    hide TopBits, Mix;
    var a, b := inp[i..i + 4], inp[j..j + 4];
    assert a[0] == b[0] && a[1] == b[1] && a[2] == b[2] && a[3] == b[3];
  }

  lemma FirstFour(inp: seq<byte>, i: nat, j: nat, n: nat)
    requires Agree(inp, i, j, n) && n >= 4
    ensures i + 4 <= |inp| && j + 4 <= |inp| && inp[i..i + 4] == inp[j..j + 4]
  {
    assert inp[i..i + 4] == inp[i..i + n][..4] && inp[j..j + 4] == inp[j..j + n][..4];
  }

  lemma BucketInWindow(p: Params)
    requires ValidParams(p)
    ensures Pow2(p.bucketBits) <= 256
  {
    Pow2Add(p.bucketBits, 8 - p.bucketBits);
    assert Pow2(8) == 256;
  }

  /** At speed one a repeat from at most a bucket's size back is always in reach. */
  lemma NearIsInReach(inp: seq<byte>, i: nat, tbl: Table, p: Params, j: nat) returns (k: nat)
    requires ValidParams(p) && ValidTable(tbl, p) && i + 4 <= |inp| && Remembers(inp, tbl, p, i)
    requires j < i <= j + Pow2(p.bucketBits) && Hash(inp, i, p.hashBits) == Hash(inp, j, p.hashBits)
    ensures var h := Hash(inp, i, p.hashBits); InReach(tbl, p, h, k, i) && Entry(tbl, p, h, k) == j
  {
    hide Pow2, ValidTable, Entry, Hash;
    BucketInWindow(p);
    var h := Hash(inp, i, p.hashBits);
    k := RecentHas(inp, p.hashBits, i, j);
    forall x: nat | x <= k ensures InWindow(Entry(tbl, p, h, x), i) {
      assert Entry(tbl, p, h, x) == NewestOr(Recent(inp, p.hashBits, i, h), x);
    }
  }

  /** So at speed one every repeat from at most a bucket's size back that pays is taken. */
  lemma NearRepeatIsTaken(inp: seq<byte>, i: nat, last: nat, tbl: Table, p: Params, j: nat, n: nat)
    requires ValidParams(p) && ValidTable(tbl, p) && last <= i && i + END_BLOCK_RESERVED < |inp| <= MAX_SIZE
    requires Remembers(inp, tbl, p, i) && j < i <= j + Pow2(p.bucketBits)
    requires Agree(inp, i, j, n) && i + n <= |inp| - END_BLOCK_RESERVED && n >= MIN_MATCH && n > (i - last) / 255 + 1
    ensures MoveAt(inp, i, last, tbl, p).Emit? && MoveAt(inp, i, last, tbl, p).token.size >= n
  {
    hide Pow2, ValidTable, Remembers, Hash, MoveAt, Agree, InReach, Entry;
    FirstFour(inp, i, j, n);
    SameHash(inp, i, j, p.hashBits);
    var k := NearIsInReach(inp, i, tbl, p, j);
    RepeatIsTaken(inp, i, last, tbl, p, k, n);
  }

  // ---- how small a periodic input gets ----

  function TokenLength(lits: nat, size: nat): nat
    requires size >= MIN_MATCH
  {
    3 + |ExtOf(lits)| + lits + |ExtOf(size - MIN_MATCH)|
  }

  /** The size of what the walk writes from `i` on. */
  function WalkLength(inp: seq<byte>, i: nat, last: nat, tbl: Table, p: Params): nat
    requires ValidParams(p) && ValidTable(tbl, p) && last <= i && last <= |inp|
    decreases |inp| - i
  {
    if i + END_BLOCK_RESERVED >= |inp| then LiteralSize(|inp| - last)
    else match MoveAt(inp, i, last, tbl, p)
      case Skip(tbl1) => WalkLength(inp, i + p.speed, last, tbl1, p)
      case Emit(t, tbl1) => TokenLength(|t.lits|, t.size) + WalkLength(inp, i + t.size, i + t.size, tbl1, p)
  }

  lemma {:induction false} WalkIsEncoded(inp: seq<byte>, i: nat, last: nat, tbl: Table, p: Params)
    requires ValidParams(p) && ValidTable(tbl, p) && last <= i && last <= |inp| <= MAX_SIZE && Before(tbl, i)
    ensures var ts := Tokens(inp, i, last, tbl, p);
      && AllValid(ts) && last + Span(ts) <= |inp|
      && |Encode(ts, inp[last + Span(ts)..])| == WalkLength(inp, i, last, tbl, p)
    decreases |inp| - i
  {
    hide MoveAt, ValidTable, CopyMatch, Before, LiteralSize, EncodeToken, TokenLength;
    if i + END_BLOCK_RESERVED >= |inp| {
      LastLength(inp[last..]);
    } else {
      MoveIsSound(inp, i, last, tbl, p);
      match MoveAt(inp, i, last, tbl, p)
      case Skip(tbl1) =>
        Later(tbl1, p, i);
        WalkIsEncoded(inp, i + p.speed, last, tbl1, p);
      case Emit(t, tbl1) =>
        var rest := Tokens(inp, i + t.size, i + t.size, tbl1, p);
        WalkIsEncoded(inp, i + t.size, i + t.size, tbl1, p);
        Longer(t, rest, inp[i + t.size + Span(rest)..]);
    }
  }

  lemma LastLength(lits: seq<byte>)
    ensures |Encode([], lits)| == LiteralSize(|lits|)
  {
  }

  lemma Longer(t: Token, rest: seq<Token>, lits: seq<byte>)
    requires ValidToken(t) && AllValid(rest)
    ensures AllValid([t] + rest) && Span([t] + rest) == |t.lits| + t.size + Span(rest)
    ensures |Encode([t] + rest, lits)| == TokenLength(|t.lits|, t.size) + |Encode(rest, lits)|
  {
    assert ([t] + rest)[1..] == rest;
  }

  /** Where too little is left for a match to pay, none is taken any more. */
  lemma {:induction false} NothingMore(inp: seq<byte>, i: nat, last: nat, tbl: Table, p: Params)
    requires ValidParams(p) && ValidTable(tbl, p) && last <= i && last <= |inp|
    requires |inp| - END_BLOCK_RESERVED - i < MIN_MATCH
    ensures WalkLength(inp, i, last, tbl, p) == LiteralSize(|inp| - last)
    decreases |inp| - i
  {
    hide Hash, Search, Insert, InsertSkipped, ValidTable, LiteralSize, TokenLength;
    if i + END_BLOCK_RESERVED < |inp| {
      NothingMore(inp, i + p.speed, last, MoveAt(inp, i, last, tbl, p).tbl, p);
    }
  }

  ghost predicate Periodic(inp: seq<byte>, q: nat) {
    0 < q && forall k | q <= k < |inp| :: inp[k] == inp[k - q]
  }

  lemma PeriodAgrees(inp: seq<byte>, q: nat, i: nat, n: nat)
    requires Periodic(inp, q) && q <= i && i + n <= |inp|
    ensures 0 < q && Agree(inp, i, i - q, n)
  {
    var a, b := inp[i..i + n], inp[i - q..i - q + n];
    forall x | 0 <= x < n ensures a[x] == b[x] {
      assert inp[i + x] == inp[i + x - q];
    }
  }

  lemma TokenLengthBound(lits: nat, size: nat)
    requires size >= MIN_MATCH && lits <= 256
    ensures TokenLength(lits, size) <= lits + size / 255 + 6
    ensures lits < 255 ==> TokenLength(lits, size) <= lits + size
  {
    ExtOfLength(lits);
    ExtOfLength(size - MIN_MATCH);
  }

  lemma LiteralSizeBound(n: nat)
    requires n <= 400
    ensures LiteralSize(n) <= n + 3
  {
    ExtOfLength(n);
  }

  /** From one period on, a single match covers everything that matches may cover. */
  lemma PeriodCovered(inp: seq<byte>, q: nat, i: nat, last: nat, tbl: Table, p: Params)
    requires ValidParams(p) && p.speed == 1 && ValidTable(tbl, p) && |inp| <= MAX_SIZE && i <= |inp|
    requires Periodic(inp, q) && q <= Pow2(p.bucketBits) && q <= i && last <= i <= last + q
    requires i + END_BLOCK_RESERVED < |inp| ==> Remembers(inp, tbl, p, i)
    ensures WalkLength(inp, i, last, tbl, p) <= i - last + (|inp| - i) / 255 + 21
  {
    hide ValidTable, Remembers, Periodic, Pow2, LiteralSize, TokenLength, MoveAt, Agree;
    BucketInWindow(p);
    var room := |inp| - END_BLOCK_RESERVED - i;
    if room < MIN_MATCH {
      NothingMore(inp, i, last, tbl, p);
      LiteralSizeBound(|inp| - last);
    } else {
      PeriodAgrees(inp, q, i, room);
      NearRepeatIsTaken(inp, i, last, tbl, p, i - q, room);
      var m := MoveAt(inp, i, last, tbl, p);
      assert m.token.size == room;
      TokenLengthBound(i - last, room);
      LiteralSizeBound(END_BLOCK_RESERVED);
    }
  }

  lemma {:induction false} PeriodWalk(inp: seq<byte>, q: nat, i: nat, last: nat, tbl: Table, p: Params)
    requires ValidParams(p) && p.speed == 1 && ValidTable(tbl, p) && |inp| <= MAX_SIZE && i <= |inp|
    requires Periodic(inp, q) && q <= Pow2(p.bucketBits) && last <= i <= q
    requires i + END_BLOCK_RESERVED < |inp| ==> Remembers(inp, tbl, p, i)
    ensures WalkLength(inp, i, last, tbl, p) <= q - last + |inp| / 255 + 27
    decreases q - i
  {
    hide ValidTable, Remembers, Periodic, Pow2, LiteralSize, TokenLength, MoveAt;
    BucketInWindow(p);
    if i + END_BLOCK_RESERVED >= |inp| {
      LiteralSizeBound(|inp| - last);
    } else if i == q {
      PeriodCovered(inp, q, i, last, tbl, p);
    } else {
      MoveRemembers(inp, i, last, tbl, p);
      match MoveAt(inp, i, last, tbl, p)
      case Skip(tbl1) => PeriodWalk(inp, q, i + 1, last, tbl1, p);
      case Emit(t, tbl1) =>
        TokenLengthBound(i - last, t.size);
        if i + t.size <= q {
          PeriodWalk(inp, q, i + t.size, i + t.size, tbl1, p);
        } else {
          PeriodCovered(inp, q, i + t.size, i + t.size, tbl1, p);
        }
    }
  }

  /** At speed one an input with a period no longer than a bucket shrinks to one period, one byte in 255 and a constant. */
  lemma PeriodicShrinks(inp: seq<byte>, q: nat, p: Params)
    requires ValidParams(p) && p.speed == 1 && |inp| <= MAX_SIZE && Periodic(inp, q) && q <= Pow2(p.bucketBits)
    ensures |Compressed(inp, p)| <= q + |inp| / 255 + 27
  {
    hide Periodic, Pow2, WalkLength, Tokens, EmptyTable, Remembers;
    if |inp| > END_BLOCK_RESERVED { EmptyRemembers(inp, p); }
    PeriodWalk(inp, q, 0, 0, EmptyTable(p), p);
    WalkIsEncoded(inp, 0, 0, EmptyTable(p), p);
  }
}
