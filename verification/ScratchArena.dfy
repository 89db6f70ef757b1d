/**
 The scratch arena: two stacks of frames, used in turn, from which any live frame may allocate at any time.
 */
module ScratchArena {
  import opened Arith

  const CHANNELS: nat := 2
  const SLOT_SIZE: nat := 8

  /** One stack: its frame slots, of which `current` marks the last valid one, and the end of its committed memory. */
  datatype Stack = Stack(base: nat, frames: seq<nat>, current: nat, commitTo: nat, reservedTo: nat)

  /** A live allocation: the frame it belongs to and its bytes. */
  datatype Block = Block(frame: nat, lo: nat, hi: nat)

  /** A handle to an acquired frame. */
  datatype Scratch = Scratch(stack: nat, frame: nat, level: nat)

  predicate Apart(a: Block, b: Block) {
    a.hi <= b.lo || b.hi <= a.lo
  }

  ghost predicate ApartFromAll(blocks: set<Block>, a: Block) {
    forall b | b in blocks :: Apart(b, a)
  }

  /** Where the memory behind the frame slots starts. */
  function DataStart(st: Stack, levels: nat): nat {
    st.base + levels * SLOT_SIZE
  }

  /**
   With `n` live frames on the stack: the current slot is past every live block, and every slot below it is past the
   blocks of the frames up to it.
   */
  ghost predicate StackOk(st: Stack, blocks: set<Block>, n: nat, levels: nat) {
    && st.current < levels && n < levels == |st.frames|
    && (forall k | 0 <= k <= st.current :: st.frames[k] >= DataStart(st, levels))
    && (forall b | b in blocks :: 0 < b.frame <= n && DataStart(st, levels) <= b.lo <= b.hi <= st.frames[st.current])
    && (forall b, k | b in blocks && b.frame <= k < st.current :: b.hi <= st.frames[k])
    && (forall a, b | a in blocks && b in blocks && a != b :: Apart(a, b))
  }

  ghost function Surviving(blocks: set<Block>, n: nat): set<Block> {
    set b | b in blocks && b.frame <= n
  }

  // ---- the steps on one stack ----

  function Acquired(st: Stack): Stack
    requires st.current + 1 < |st.frames|
  {
    st.(frames := st.frames[st.current + 1 := st.frames[st.current]], current := st.current + 1)
  }

  /** One slot is fixed up; slots further up are left to the next push. */
  lemma AcquireKeeps(st: Stack, blocks: set<Block>, n: nat, levels: nat)
    requires StackOk(st, blocks, n, levels) && n + 1 < levels && st.current + 1 < levels
    ensures StackOk(Acquired(st), blocks, n + 1, levels)
  {
  }

  function Released(st: Stack, frame: nat): Stack
    requires frame > 0
  {
    st.(current := if st.current < frame - 1 then st.current else frame - 1)
  }

  /** Releasing a frame rewinds to a slot that is past everything the frames below it hold. */
  lemma ReleaseKeeps(st: Stack, blocks: set<Block>, n: nat, levels: nat, frame: nat)
    requires StackOk(st, blocks, n, levels) && 0 < frame <= n
    ensures StackOk(Released(st, frame), Surviving(blocks, frame - 1), frame - 1, levels)
  {
  }

  /** Frames that end without their stack being rewound leave it consistent. */
  lemma EndedKeeps(st: Stack, blocks: set<Block>, n: nat, levels: nat, m: nat)
    requires StackOk(st, blocks, n, levels) && m <= n
    ensures StackOk(st, Surviving(blocks, m), m, levels)
  {
  }

  /** The frame slots after a fall, a rise, or neither. */
  function Levelled(st: Stack, frame: nat): (r: seq<nat>)
    requires frame < |st.frames| && st.current < |st.frames|
    ensures |r| == |st.frames| && r[frame] == (if frame == st.current then st.frames[frame] else st.frames[st.current])
  {
    seq(|st.frames|, k requires 0 <= k < |st.frames| =>
      if k == frame || st.current < k <= frame then st.frames[st.current] else st.frames[k])
  }

  /** A failed push may have levelled slots; that is harmless. */
  lemma LevelledKeeps(st: Stack, blocks: set<Block>, n: nat, levels: nat, frame: nat)
    requires StackOk(st, blocks, n, levels) && 0 < frame <= n
    ensures StackOk(st.(frames := Levelled(st, frame)), blocks, n, levels)
  {
  }

  /** A push puts its block past every live one and makes its frame the current one. */
  lemma PushKeeps(st: Stack, blocks: set<Block>, n: nat, levels: nat, frame: nat, lo: nat, hi: nat, commitTo: nat)
    requires StackOk(st, blocks, n, levels) && 0 < frame <= n && st.frames[st.current] <= lo <= hi
    ensures StackOk(st.(frames := Levelled(st, frame)[frame := hi], current := frame, commitTo := commitTo),
                    blocks + {Block(frame, lo, hi)}, n, levels)
    ensures ApartFromAll(blocks, Block(frame, lo, hi))
  {
  }

  // ---- memory given back ----

  /** The first byte that is not in use. */
  function FirstFree(st: Stack): nat
    requires st.current < |st.frames|
  {
    st.frames[st.current]
  }

  /** What one call does to a stack: a frame opened, closed, grown by a push, or levelled by a failed push. */
  datatype StackStep = Opened | ClosedTo(frame: nat) | GrownBy(frame: nat, hi: nat, commitTo: nat) | LevelledBy(frame: nat)

  predicate Fits(st: Stack, step: StackStep) {
    && st.current < |st.frames|
    && match step
       case Opened => st.current + 1 < |st.frames|
       case ClosedTo(frame) => frame > 0
       case GrownBy(frame, _, _) => frame < |st.frames|
       case LevelledBy(frame) => frame < |st.frames|
  }

  function Stepped(st: Stack, step: StackStep): (r: Stack)
    requires Fits(st, step)
    ensures |r.frames| == |st.frames| && r.current < |r.frames|
  {
    match step
    case Opened => Acquired(st)
    case ClosedTo(frame) => Released(st, frame)
    case GrownBy(frame, hi, commitTo) => st.(frames := Levelled(st, frame)[frame := hi], current := frame, commitTo := commitTo)
    case LevelledBy(frame) => st.(frames := Levelled(st, frame))
  }

  /** The step is one of a frame above `n`. */
  predicate Above(step: StackStep, n: nat) {
    match step
    case Opened => true
    case ClosedTo(frame) => frame > n + 1
    case GrownBy(frame, _, _) => frame > n
    case LevelledBy(frame) => frame > n
  }

  /** What the stack falls back to when frame `n + 1` is released. */
  function Floor(st: Stack, n: nat): nat
    requires st.current < |st.frames|
  {
    st.frames[if st.current < n then st.current else n]
  }

  lemma AboveKeepsFloor(st: Stack, step: StackStep, n: nat)
    requires Fits(st, step) && Above(step, n)
    ensures Floor(Stepped(st, step), n) == Floor(st, n)
  {
  }

  predicate AllFit(st: Stack, steps: seq<StackStep>, n: nat)
    decreases |steps|
  {
    steps == [] || (Fits(st, steps[0]) && Above(steps[0], n) && AllFit(Stepped(st, steps[0]), steps[1..], n))
  }

  function SteppedAll(st: Stack, steps: seq<StackStep>, n: nat): (r: Stack)
    requires AllFit(st, steps, n)
    ensures st.current < |st.frames| ==> r.current < |r.frames|
    decreases |steps|
  {
    if steps == [] then st else SteppedAll(Stepped(st, steps[0]), steps[1..], n)
  }

  lemma {:induction false} AllKeepFloor(st: Stack, steps: seq<StackStep>, n: nat)
    requires AllFit(st, steps, n) && st.current < |st.frames|
    ensures Floor(SteppedAll(st, steps, n), n) == Floor(st, n)
    decreases |steps|
  {
    if steps != [] {
      AboveKeepsFloor(st, steps[0], n);
      AllKeepFloor(Stepped(st, steps[0]), steps[1..], n);
    }
  }

  /** Opening frame `n + 1`, whatever it and the frames above it do, and releasing it leaves the first free byte where it
      was: everything they allocated is given back. */
  lemma ReleaseGivesBack(st: Stack, steps: seq<StackStep>, n: nat)
    requires st.current <= n && st.current + 1 < |st.frames| && AllFit(Acquired(st), steps, n)
    ensures var r := Released(SteppedAll(Acquired(st), steps, n), n + 1);
      r.current < |r.frames| && FirstFree(r) == FirstFree(st)
  {
    AllKeepFloor(Acquired(st), steps, n);
  }

  // ---- committed memory ----

  function RoundUp(size: nat, granularity: nat): (r: nat)
    requires granularity > 0
    ensures size <= r < size + granularity && r % granularity == 0
  {
    AlignUp(size, granularity)
  }

  /** The memory committed for a block also covers the padding in front of it. */
  predicate Covered(used: nat, commitTo: nat, size: nat, align: nat, granularity: nat)
    requires align > 0 && granularity > 0
  {
    AlignUp(used, align) + size <= commitTo + RoundUp(size, granularity)
  }

  lemma MultipleBelow(p: nat, m: nat, a: nat)
    requires a > 0 && p % a == 0 && m % a == 0 && p < m + a
    ensures p <= m
  {
    DivMod(a, p);
    DivMod(a, m);
    if p > m {
      assert a * (p / a - m / a) == p - m;
      SmallMultiple(a, p / a - m / a);
    }
  }

  /** An alignment that divides the end of the committed memory, as any up to a page does, is always covered. */
  lemma AlignedIsCovered(used: nat, commitTo: nat, size: nat, align: nat, granularity: nat)
    requires align > 0 && granularity > 0 && used <= commitTo && commitTo % align == 0
    ensures Covered(used, commitTo, size, align, granularity)
  {
    MultipleBelow(AlignUp(used, align), commitTo, align);
  }

  /** A coarser alignment can leave the end of a block without committed memory. */
  lemma CoarseIsNotCovered()
    ensures !Covered(8000, 8192, 4096, 65536, 4096)
  {
    MultipleBelow(65536, AlignUp(8000, 65536), 65536);
  }

  /** The slots in use stay within the committed memory, and that within the reserved memory. */
  ghost predicate InsideStack(st: Stack) {
    st.commitTo <= st.reservedTo && forall k | 0 <= k <= st.current && k < |st.frames| :: st.frames[k] <= st.commitTo
  }

  lemma StackFits(st: Stack, blocks: set<Block>, n: nat, levels: nat)
    requires StackOk(st, blocks, n, levels)
    ensures st.current < levels && n < levels == |st.frames|
  {
  }

  lemma AcquireInside(st: Stack)
    requires st.current + 1 < |st.frames|
    ensures InsideStack(st) ==> InsideStack(Acquired(st))
  {
  }

  lemma ReleaseInside(st: Stack, frame: nat)
    requires frame > 0
    ensures InsideStack(st) ==> InsideStack(Released(st, frame))
  {
  }

  // ---- pushing ----

  /** What a push does to its stack. It succeeds exactly when the block fits the committed memory, or the memory it asks
      for fits the reserved memory and is granted. */
  ghost predicate Pushed(st: Stack, frame: nat, size: nat, align: nat, granularity: nat, granted: bool,
                         ok: bool, out: nat, st2: Stack)
    requires align > 0 && granularity > 0 && frame < |st.frames| && st.current < |st.frames|
  {
    var start := AlignUp(st.frames[st.current], align);
    && (ok <==> start + size <= st.commitTo || (granted && st.commitTo + RoundUp(size, granularity) <= st.reservedTo))
    && (ok ==>
      && out == start
      && st2.commitTo == (if out + size > st.commitTo then st.commitTo + RoundUp(size, granularity) else st.commitTo)
      && st2 == st.(frames := Levelled(st, frame)[frame := out + size], current := frame, commitTo := st2.commitTo))
    && (!ok ==> st2 == st.(frames := Levelled(st, frame)))
  }

  method PushOn(st: Stack, frame: nat, size: nat, align: nat, granularity: nat, granted: bool) returns (ok: bool, out: nat, st2: Stack)
    requires align > 0 && granularity > 0 && frame < |st.frames| && st.current < |st.frames|
    ensures Pushed(st, frame, size, align, granularity, granted, ok, out, st2)
  {
    out := AlignUp(st.frames[frame], align);
    if st.current != frame || out + size > st.commitTo {
      ok, out, st2 := UnusualPush(st, frame, size, align, granularity, granted);
    } else {
      assert Levelled(st, frame) == st.frames;
      ok, st2 := true, st.(frames := st.frames[frame := out + size]);
    }
  }

  /** Falls or rises to the pushing frame, and commits more memory if needed. */
  method UnusualPush(st: Stack, frame: nat, size: nat, align: nat, granularity: nat, granted: bool)
    returns (ok: bool, out: nat, st2: Stack)
    requires align > 0 && granularity > 0 && frame < |st.frames| && st.current < |st.frames|
    ensures Pushed(st, frame, size, align, granularity, granted, ok, out, st2)
  {
    var frames, used := st.frames, st.frames[st.current];
    if frame < st.current {
      frames := frames[frame := used];
    }
    if frame > st.current {
      var k := st.current + 1;
      while k <= frame
        invariant st.current < k <= frame + 1 && |frames| == |st.frames|
        invariant forall j | 0 <= j < |frames| && st.current < j < k :: frames[j] == used
        invariant forall j | 0 <= j < |frames| && !(st.current < j < k) :: frames[j] == st.frames[j]
      {
        frames := frames[k := used];
        k := k + 1;
      }
    }
    assert frames == Levelled(st, frame);
    out := AlignUp(frames[frame], align);
    var commitTo := st.commitTo;
    if out + size > commitTo {
      var commit := RoundUp(size, granularity);
      if commitTo + commit > st.reservedTo || !granted {
        return false, 0, st.(frames := frames);
      }
      commitTo := commitTo + commit;
    }
    ok, st2 := true, st.(frames := frames[frame := out + size], current := frame, commitTo := commitTo);
  }

  lemma PushedKeeps(st: Stack, blocks: set<Block>, n: nat, levels: nat, frame: nat, size: nat, align: nat, granularity: nat,
                    granted: bool, ok: bool, out: nat, st2: Stack)
    requires StackOk(st, blocks, n, levels) && 0 < frame <= n && align > 0 && granularity > 0
    requires Pushed(st, frame, size, align, granularity, granted, ok, out, st2)
    ensures !ok ==> StackOk(st2, blocks, n, levels)
    ensures ok ==> StackOk(st2, blocks + {Block(frame, out, out + size)}, n, levels) && out % align == 0
    ensures ok ==> ApartFromAll(blocks, Block(frame, out, out + size))
  {
    hide StackOk, Levelled, AlignUp, RoundUp, Apart;
    StackFits(st, blocks, n, levels);
    if ok {
      PushKeeps(st, blocks, n, levels, frame, out, out + size, st2.commitTo);
    } else {
      LevelledKeeps(st, blocks, n, levels, frame);
    }
  }

  /** A push stays within the committed memory exactly when its padding is covered or no memory was needed. */
  lemma PushedInside(st: Stack, frame: nat, size: nat, align: nat, granularity: nat, granted: bool, ok: bool, out: nat, st2: Stack)
    requires align > 0 && granularity > 0 && frame < |st.frames| && st.current < |st.frames| && InsideStack(st)
    requires Pushed(st, frame, size, align, granularity, granted, ok, out, st2)
    ensures !ok ==> InsideStack(st2)
    ensures ok ==> (InsideStack(st2) <==>
                      Covered(st.frames[st.current], st.commitTo, size, align, granularity) || out + size <= st.commitTo)
  {
    hide AlignUp, RoundUp;
    assert ok ==> st2.frames[frame] == out + size;
  }

  /** Blocks of stacks that stay inside memories that do not overlap are apart. */
  lemma StacksApart(st: Stack, blocks: set<Block>, n: nat, other: Stack, others: set<Block>, m: nat, levels: nat, a: Block)
    requires StackOk(st, blocks, n, levels) && StackOk(other, others, m, levels) && InsideStack(st) && InsideStack(other)
    requires (st.reservedTo <= other.base || other.reservedTo <= st.base) && a in blocks
    ensures ApartFromAll(others, a)
  {
    assert a.hi <= st.frames[st.current] <= st.commitTo;
    forall b | b in others ensures Apart(b, a) {
      assert b.hi <= other.frames[other.current] <= other.commitTo;
    }
  }

  /** All live blocks of an arena that stays inside its memory are pairwise apart. */
  lemma LiveBlocksApart(st: Stack, blocks: set<Block>, n: nat, other: Stack, others: set<Block>, m: nat, levels: nat)
    requires StackOk(st, blocks, n, levels) && StackOk(other, others, m, levels) && InsideStack(st) && InsideStack(other)
    requires st.reservedTo <= other.base
    ensures forall a, b | a in blocks && b in blocks && a != b :: Apart(a, b)
    ensures forall a | a in blocks :: ApartFromAll(others, a)
    ensures forall a, b | a in others && b in others && a != b :: Apart(a, b)
  {
    forall a | a in blocks ensures ApartFromAll(others, a) {
      StacksApart(st, blocks, n, other, others, m, levels, a);
    }
  }

  /**
   The slot of a frame lies before the data exactly when a level is spare. Without one, which the source allows, the slot
   of the deepest frame is the first word of the data.
   */
  lemma SpareLevel(base: nat, levels: nat, frameCount: nat)
    requires frameCount < levels * CHANNELS
    ensures var slot := base + (frameCount / CHANNELS + 1) * SLOT_SIZE; var data := base + levels * SLOT_SIZE;
      && (slot + SLOT_SIZE <= data <==> frameCount / CHANNELS + 1 < levels)
      && (frameCount / CHANNELS + 1 >= levels ==> slot == data)
  {
  }

  // ---- the arena ----

  /** How many of the live frames are on a stack. */
  function LiveOn(frameCount: nat, i: nat): nat
    requires i < CHANNELS
  {
    (frameCount + 1 - i) / 2
  }

  lemma LiveStep(frameCount: nat)
    ensures var i := frameCount % CHANNELS;
      && LiveOn(frameCount, i) == frameCount / CHANNELS && LiveOn(frameCount + 1, i) == frameCount / CHANNELS + 1
      && LiveOn(frameCount + 1, 1 - i) == LiveOn(frameCount, 1 - i)
  {
  }

  lemma LiveLower(level: nat, frameCount: nat)
    requires level <= frameCount
    ensures LiveOn(level, 0) <= LiveOn(frameCount, 0) && LiveOn(level, 1) <= LiveOn(frameCount, 1)
  {
  }

  lemma LiveHandle(frameCount: nat, level: nat)
    requires level < frameCount
    ensures 0 < level / CHANNELS + 1 <= LiveOn(frameCount, level % CHANNELS)
  {
  }

  class Arena {
    var stacks: seq<Stack>
    var frameCount: nat
    var levels: nat
    var granularity: nat

    ghost var blocks: seq<set<Block>>

    ghost predicate Valid()
      reads this
    {
      && |stacks| == |blocks| == CHANNELS && granularity > 0
      && StackOk(stacks[0], blocks[0], LiveOn(frameCount, 0), levels) && StackOk(stacks[1], blocks[1], LiveOn(frameCount, 1), levels)
    }

    /** Both stacks stay within their memory, and the memories do not overlap. */
    ghost predicate Inside()
      reads this
      requires Valid()
    {
      InsideStack(stacks[0]) && InsideStack(stacks[1]) && stacks[0].reservedTo <= stacks[1].base
    }

    ghost predicate IsLive(sc: Scratch)
      reads this
    {
      sc.level < frameCount && sc.stack == sc.level % CHANNELS && sc.frame == sc.level / CHANNELS + 1
    }

    /** The current slot of each stack belongs to one of its live frames. */
    ghost predicate Nested()
      reads this
      requires Valid()
    {
      stacks[0].current <= LiveOn(frameCount, 0) && stacks[1].current <= LiveOn(frameCount, 1)
    }

    method Init(base: nat, half: nat, levelCount: nat, commitSize: nat, commitGranularity: nat)
      requires levelCount > 0 && commitGranularity > 0 && levelCount * SLOT_SIZE <= commitSize <= half
      modifies this
      ensures Valid() && Inside() && Nested() && frameCount == 0 && levels == levelCount && blocks == [{}, {}]
    {
      levels, granularity, frameCount := levelCount, commitGranularity, 0;
      var empty := seq(levelCount, _ => 0);
      var next := base + half;
      var first := Stack(base, empty[0 := base + levelCount * SLOT_SIZE], 0, base + commitSize, base + half);
      var second := Stack(next, empty[0 := next + levelCount * SLOT_SIZE], 0, next + commitSize, next + half);
      stacks := [first, second];
      blocks := [{}, {}];
    }

    /**
     Opens a frame on the stack whose turn it is. One slot per stack is kept spare, and there must be a slot after the
     current one; while frames are released in the order opposite to their acquisition the first implies the second.
     */
    method Acquire() returns (sc: Scratch)
      requires Valid() && frameCount / CHANNELS + 1 < levels
      requires Nested() || stacks[frameCount % CHANNELS].current + 1 < levels
      modifies `stacks, `frameCount
      ensures Valid() && frameCount == old(frameCount) + 1 && IsLive(sc) && sc.level == old(frameCount)
      ensures old(stacks[sc.stack].current) + 1 < |old(stacks[sc.stack].frames)|
      ensures stacks == old(stacks)[sc.stack := Acquired(old(stacks[sc.stack]))]
      ensures old(Inside()) ==> Inside()
      ensures old(Nested()) ==> Nested()
    {
      hide StackOk, InsideStack;
      var level, i := frameCount / CHANNELS, frameCount % CHANNELS;
      LiveStep(frameCount);
      StackFits(stacks[i], blocks[i], level, levels);
      AcquireKeeps(stacks[i], blocks[i], level, levels);
      AcquireInside(stacks[i]);
      stacks := stacks[i := Acquired(stacks[i])];
      sc := Scratch(i, level + 1, frameCount);
      frameCount := frameCount + 1;
    }

    /**
     Closes a frame and with it every frame opened after it; their blocks end. Only the stack of the frame itself is
     rewound, so that the current slots belong to live frames again only if the frame was the last one opened.
     */
    method Release(sc: Scratch)
      requires Valid() && IsLive(sc)
      modifies `stacks, `frameCount, `blocks
      ensures Valid() && frameCount == sc.level
      ensures stacks == old(stacks)[sc.stack := Released(old(stacks[sc.stack]), sc.frame)]
      ensures blocks == [Surviving(old(blocks)[0], LiveOn(frameCount, 0)), Surviving(old(blocks)[1], LiveOn(frameCount, 1))]
      ensures old(Inside()) ==> Inside()
      ensures old(Nested()) && old(frameCount) == sc.level + 1 ==> Nested()
    {
      hide StackOk, InsideStack, Surviving;
      var i := sc.stack;
      LiveStep(sc.level);
      LiveHandle(frameCount, sc.level);
      LiveLower(sc.level, frameCount);
      ReleaseKeeps(stacks[i], blocks[i], LiveOn(frameCount, i), levels, sc.frame);
      EndedKeeps(stacks[1 - i], blocks[1 - i], LiveOn(frameCount, 1 - i), levels, LiveOn(sc.level, 1 - i));
      ReleaseInside(stacks[i], sc.frame);
      stacks := stacks[i := Released(stacks[i], sc.frame)];
      blocks := [Surviving(blocks[0], LiveOn(sc.level, 0)), Surviving(blocks[1], LiveOn(sc.level, 1))];
      frameCount := sc.level;
    }

    /**
     Allocates from any live frame. `granted` is the answer of the system when memory has to be committed. The new block
     is apart from every live block of its stack, and of the other stack too while both stay inside their memory.
     */
    method Push(sc: Scratch, size: nat, align: nat, granted: bool) returns (ok: bool, out: nat)
      requires Valid() && IsLive(sc) && align > 0
      modifies `stacks, `blocks
      ensures Valid() && (!ok ==> blocks == old(blocks))
      ensures old(sc.frame < |stacks[sc.stack].frames| && stacks[sc.stack].current < |stacks[sc.stack].frames|)
      ensures stacks == old(stacks)[sc.stack := stacks[sc.stack]]
      ensures Pushed(old(stacks[sc.stack]), sc.frame, size, align, granularity, granted, ok, out, stacks[sc.stack])
      ensures ok ==> blocks == old(blocks)[sc.stack := old(blocks)[sc.stack] + {Block(sc.frame, out, out + size)}]
      ensures ok ==> out % align == 0 && ApartFromAll(old(blocks)[sc.stack], Block(sc.frame, out, out + size))
      ensures !ok && old(Inside()) ==> Inside()
      ensures ok && old(Inside()) ==>
        (Inside() <==> old(var st := stacks[sc.stack]; Covered(st.frames[st.current], st.commitTo, size, align, granularity))
                       || out + size <= old(stacks[sc.stack].commitTo))
      ensures ok && old(Inside()) && Inside() ==> ApartFromAll(old(blocks)[1 - sc.stack], Block(sc.frame, out, out + size))
      ensures old(Nested()) ==> Nested()
    {
      hide StackOk, LiveOn, InsideStack, Covered, Apart, Pushed;
      var i, frame := sc.stack, sc.frame;
      LiveHandle(frameCount, sc.level);
      ghost var n := LiveOn(frameCount, i);
      var st := stacks[i];
      StackFits(st, blocks[i], n, levels);
      ok, out, st := PushOn(st, frame, size, align, granularity, granted);
      PushedKeeps(stacks[i], blocks[i], n, levels, frame, size, align, granularity, granted, ok, out, st);
      if Inside() { PushedInside(stacks[i], frame, size, align, granularity, granted, ok, out, st); }
      stacks := stacks[i := st];
      if ok {
        blocks := blocks[i := blocks[i] + {Block(frame, out, out + size)}];
        if old(Inside()) && Inside() {
          StacksApart(stacks[i], blocks[i], n, stacks[1 - i], blocks[1 - i], LiveOn(frameCount, 1 - i), levels, Block(frame, out, out + size));
        }
      }
    }
  }
}
