/**
 The growing queue with one producer and any number of consumers as a step machine: every load, store, compare-and-swap
 and item copy that another thread can observe is one step. Positions are unbounded naturals.
 */
module SpmcModel {
  type Item = int

  /** A ring of items; the source keeps its length, a power of two, as a mask. */
  datatype Block = Block(data: seq<Item>)

  /** The blocks ever published, oldest first. The push and the pop side both refer to the last one. */
  datatype Shared = Shared(blocks: seq<Block>, head: nat, estimateTail: nat, tail: nat)

  /** Why the producer grows the ring: a push that found too little room, or a call that only asks for room. */
  datatype Purpose = ForPush(items: seq<Item>) | ForRoom(toSize: int)

  datatype Producer =
    | PushIdle
    | PushLoadHead(items: seq<Item>)
    | PushReserve(purpose: Purpose)
    | PushCopy(purpose: Purpose, capacity: nat)
    | PushPublish(purpose: Purpose, ring: Block)
    | PushWrite(items: seq<Item>, done: nat)

  datatype Consumer =
    | PopIdle
    | PopLoadEstimate(head: nat)
    | PopLoadTail(head: nat)
    | PopStoreEstimate(head: nat, tail: nat)
    | PopLoadBlock(head: nat, tail: nat)
    | PopRead(head: nat, block: nat)
    | PopCas(head: nat, item: Item)

  /** Everything pushed and everything popped, in order of the tail stores and of the winning swaps. */
  datatype History = History(pushed: seq<Item>, popped: seq<Item>)

  datatype State = State(sh: Shared, estimateHead: nat, limit: int, producer: Producer, consumers: seq<Consumer>, h: History)

  datatype Action =
    | Push(items: seq<Item>)
    | Reserve(toSize: int)
    | ProducerStep(granted: bool)
    | ConsumerStep(i: nat)

  function SlotOf(position: nat, capacity: nat): (r: nat)
    requires capacity > 0
    ensures r < capacity
  {
    position % capacity
  }

  function Capacity(sh: Shared): nat {
    if sh.blocks == [] then 0 else |sh.blocks[|sh.blocks| - 1].data|
  }

  function Current(sh: Shared): Block
    requires sh.blocks != []
  {
    sh.blocks[|sh.blocks| - 1]
  }

  /** Doubling from 64. */
  function NewCapacity(toSize: nat, capacity: nat): (r: nat)
    requires capacity > 0
    ensures r >= toSize && r >= capacity
    decreases toSize - capacity
  {
    if capacity < toSize then NewCapacity(toSize, 2 * capacity) else capacity
  }

  /** The positions from `head` on that hold items, copied to their slots in a larger ring. */
  function Copied(from: Block, to: Block, head: nat, tail: nat): (r: Block)
    requires |from.data| > 0 && |to.data| > 0
    ensures |r.data| == |to.data|
    decreases tail - head
  {
    if head < tail then
      Copied(from, Block(to.data[SlotOf(head, |to.data|) := from.data[SlotOf(head, |from.data|)]]), head + 1, tail)
    else to
  }

  /** Whether the producer sees too little room. */
  predicate Crowded(sh: Shared, estimateHead: nat, count: nat) {
    sh.blocks == [] || sh.tail - estimateHead + count > Capacity(sh)
  }

  /** `room` for a push is the producer's own view: its tail and its estimate of the head. */
  function ToSize(sh: Shared, estimateHead: nat, count: nat): int {
    sh.tail - estimateHead + count
  }

  /** The size a growing step asks for. */
  function Wanted(sh: Shared, estimateHead: nat, purpose: Purpose): int {
    match purpose
    case ForPush(items) => ToSize(sh, estimateHead, |items|)
    case ForRoom(toSize) => toSize
  }

  function Start(s: State, items: seq<Item>): State {
    if s.producer != PushIdle then s
    else if Crowded(s.sh, s.estimateHead, |items|) then s.(producer := PushLoadHead(items))
    else s.(producer := PushWrite(items, 0))
  }

  /** Growing is refused, and a push with it, when the ring is large enough already, the limit forbids it or memory is
      not granted. */
  function AfterReserve(s: State, purpose: Purpose, granted: bool): Producer {
    var size := Wanted(s.sh, s.estimateHead, purpose);
    if Capacity(s.sh) < size && (s.limit < 0 || size <= s.limit) && granted then
      var capacity := NewCapacity(size, 64);
      if s.sh.blocks == [] then PushPublish(purpose, Block(seq(capacity, _ => 0))) else PushCopy(purpose, capacity)
    else PushIdle
  }

  function Stored(sh: Shared, position: nat, item: Item): Shared
    requires sh.blocks != [] && Capacity(sh) > 0
  {
    var last := |sh.blocks| - 1;
    sh.(blocks := sh.blocks[last := Block(sh.blocks[last].data[SlotOf(position, Capacity(sh)) := item])])
  }

  function Produce(s: State, granted: bool): State {
    match s.producer
    case PushIdle => s
    case PushLoadHead(items) =>
      var estimate := s.sh.head;
      s.(estimateHead := estimate,
         producer := if Crowded(s.sh, estimate, |items|) then PushReserve(ForPush(items)) else PushWrite(items, 0))
    case PushReserve(purpose) => s.(producer := AfterReserve(s, purpose, granted))
    case PushCopy(purpose, capacity) =>
      if capacity > 0 && Capacity(s.sh) > 0 then
        s.(producer := PushPublish(purpose, Copied(Current(s.sh), Block(seq(capacity, _ => 0)), s.sh.head, s.sh.tail)))
      else s
    case PushPublish(purpose, ring) =>
      s.(sh := s.sh.(blocks := s.sh.blocks + [ring]),
         producer := if purpose.ForPush? then PushWrite(purpose.items, 0) else PushIdle)
    case PushWrite(items, done) =>
      if done < |items| then
        if Capacity(s.sh) > 0 then s.(sh := Stored(s.sh, s.sh.tail + done, items[done]), producer := PushWrite(items, done + 1)) else s
      else
        s.(sh := s.sh.(tail := s.sh.tail + |items|), producer := PushIdle, h := s.h.(pushed := s.h.pushed + items))
  }

  function Consume(sh: Shared, h: History, c: Consumer): (Shared, History, Consumer) {
    match c
    case PopIdle => (sh, h, PopLoadEstimate(sh.head))
    case PopLoadEstimate(head) =>
      (sh, h, if sh.estimateTail <= head then PopLoadTail(head) else PopLoadBlock(head, sh.estimateTail))
    case PopLoadTail(head) => (sh, h, PopStoreEstimate(head, sh.tail))
    case PopStoreEstimate(head, tail) =>
      (sh.(estimateTail := tail), h, if tail <= head then PopIdle else PopLoadBlock(head, tail))
    case PopLoadBlock(head, tail) => (sh, h, if sh.blocks == [] then c else PopRead(head, |sh.blocks| - 1))
    case PopRead(head, block) =>
      if block < |sh.blocks| && |sh.blocks[block].data| > 0 then
        (sh, h, PopCas(head, sh.blocks[block].data[SlotOf(head, |sh.blocks[block].data|)]))
      else (sh, h, c)
    case PopCas(head, item) =>
      if sh.head == head then (sh.(head := head + 1), h.(popped := h.popped + [item]), PopIdle) else (sh, h, PopIdle)
  }

  function Next(s: State, a: Action): State {
    match a
    case Push(items) => Start(s, items)
    case Reserve(toSize) => if s.producer == PushIdle then s.(producer := PushReserve(ForRoom(toSize))) else s
    case ProducerStep(granted) => Produce(s, granted)
    case ConsumerStep(i) =>
      if i < |s.consumers| then
        var (sh, h, c) := Consume(s.sh, s.h, s.consumers[i]);
        s.(sh := sh, h := h, consumers := s.consumers[i := c])
      else s
  }

  function Init(limit: int, threads: nat): State {
    State(Shared([], 0, 0, 0), 0, limit, PushIdle, seq(threads, _ => PopIdle), History([], []))
  }

  function Run(limit: int, threads: nat, actions: seq<Action>): State {
    if actions == [] then Init(limit, threads)
    else Next(Run(limit, threads, actions[..|actions| - 1]), actions[|actions| - 1])
  }
}

/**
 What every run of the queue keeps.
 */
module SpmcTheorems {
  import opened Arith
  import opened SpmcModel

  /** The ring holds every unread item at its slot. */
  ghost predicate Holds(b: Block, pushed: seq<Item>, head: nat, tail: nat) {
    && |b.data| > 0 && tail <= |pushed| && tail - head <= |b.data|
    && forall p: nat | head <= p < tail :: b.data[SlotOf(p, |b.data|)] == pushed[p]
  }

  ghost predicate SharedOk(sh: Shared, h: History) {
    && sh.head <= sh.tail == |h.pushed| && h.popped == h.pushed[..sh.head] && sh.estimateTail <= sh.tail
    && (forall b | 0 <= b < |sh.blocks| :: |sh.blocks[b].data| > 0)
    && (sh.blocks == [] ==> sh.tail == 0)
    && (sh.blocks != [] ==> Holds(Current(sh), h.pushed, sh.head, sh.tail))
  }

  ghost predicate ProducerOk(sh: Shared, h: History, estimateHead: nat, p: Producer) {
    && estimateHead <= sh.head
    && match p
       case PushCopy(purpose, capacity) =>
         sh.blocks != [] && capacity >= Wanted(sh, estimateHead, purpose) && capacity > Capacity(sh)
       case PushPublish(purpose, ring) =>
         |ring.data| >= Wanted(sh, estimateHead, purpose) && Holds(ring, h.pushed, sh.head, sh.tail)
       case PushWrite(items, done) =>
         && sh.blocks != [] && done <= |items| && ToSize(sh, estimateHead, |items|) <= Capacity(sh)
         && Capacity(sh) > 0 && forall j: nat | j < done :: Current(sh).data[SlotOf(sh.tail + j, Capacity(sh))] == items[j]
       case _ => true
  }

  ghost predicate ConsumerOk(sh: Shared, h: History, c: Consumer) {
    match c
    case PopIdle => true
    case PopLoadEstimate(head) => head <= sh.head
    case PopLoadTail(head) => head <= sh.head
    case PopStoreEstimate(head, tail) => head <= sh.head && tail <= sh.tail
    case PopLoadBlock(head, tail) => head <= sh.head && head < tail <= sh.tail
    case PopRead(head, block) =>
      && head <= sh.head && head < sh.tail && block < |sh.blocks| && |sh.blocks[block].data| > 0
      && (head == sh.head ==> head < |h.pushed| && sh.blocks[block].data[SlotOf(head, |sh.blocks[block].data|)] == h.pushed[head])
    case PopCas(head, item) =>
      head <= sh.head && head < sh.tail && (head == sh.head ==> head < |h.pushed| && item == h.pushed[head])
  }

  ghost predicate Inv(s: State) {
    && SharedOk(s.sh, s.h) && ProducerOk(s.sh, s.h, s.estimateHead, s.producer)
    && forall i | 0 <= i < |s.consumers| :: ConsumerOk(s.sh, s.h, s.consumers[i])
  }

  /** Positions less than a capacity apart have different slots. */
  lemma SlotsDiffer(c: nat, x: nat, y: nat)
    requires c > 0 && x < y < x + c
    ensures SlotOf(x, c) != SlotOf(y, c)
  {
    if x % c == y % c {
      assert c * (y / c - x / c) == y - x;
      SmallMultiple(c, y / c - x / c);
    }
  }

  // ---- consumers ----

  /** While the head stands still, no block's slot of the head position changes. */
  ghost predicate KeepsHead(sh: Shared, sh2: Shared) {
    && |sh.blocks| <= |sh2.blocks|
    && forall b | 0 <= b < |sh.blocks| :: |sh2.blocks[b].data| == |sh.blocks[b].data|
         && (|sh.blocks[b].data| > 0 && sh2.head == sh.head < sh.tail ==>
               sh2.blocks[b].data[SlotOf(sh.head, |sh.blocks[b].data|)] == sh.blocks[b].data[SlotOf(sh.head, |sh.blocks[b].data|)])
  }

  /** What one consumer knows survives the steps of all others. */
  lemma ConsumerFrame(sh: Shared, h: History, sh2: Shared, h2: History, c: Consumer)
    requires ConsumerOk(sh, h, c) && sh.head <= sh2.head && sh.tail <= sh2.tail && h.pushed <= h2.pushed && KeepsHead(sh, sh2)
    ensures ConsumerOk(sh2, h2, c)
  {
    hide SlotOf;
  }

  lemma ConsumeKeeps(sh: Shared, h: History, c: Consumer)
    requires SharedOk(sh, h) && ConsumerOk(sh, h, c)
    ensures var (sh2, h2, c2) := Consume(sh, h, c);
      && SharedOk(sh2, h2) && ConsumerOk(sh2, h2, c2)
      && sh.head <= sh2.head && sh2.tail == sh.tail && h2.pushed == h.pushed && sh2.blocks == sh.blocks
  {
    hide SlotOf;
  }

  lemma ProducerFrame(sh: Shared, sh2: Shared, h: History, h2: History, estimateHead: nat, p: Producer)
    requires ProducerOk(sh, h, estimateHead, p) && sh.head <= sh2.head && sh2.tail == sh.tail && h2.pushed == h.pushed
    requires sh2.blocks == sh.blocks && sh2.head <= sh2.tail
    ensures ProducerOk(sh2, h2, estimateHead, p)
  {
    hide SlotOf;
  }

  // ---- the producer ----

  lemma {:induction false} CopiedAll(from: Block, to: Block, low: nat, head: nat, tail: nat)
    requires |from.data| > 0 && |to.data| > 0 && low <= head && tail - low <= |to.data|
    requires forall p: nat | low <= p < head :: to.data[SlotOf(p, |to.data|)] == from.data[SlotOf(p, |from.data|)]
    ensures forall p: nat | low <= p < tail ::
              Copied(from, to, head, tail).data[SlotOf(p, |to.data|)] == from.data[SlotOf(p, |from.data|)]
    decreases tail - head
  {
    hide SlotOf;
    if head < tail {
      var next := Block(to.data[SlotOf(head, |to.data|) := from.data[SlotOf(head, |from.data|)]]);
      forall p: nat | low <= p < head + 1 ensures next.data[SlotOf(p, |to.data|)] == from.data[SlotOf(p, |from.data|)] {
        if p < head { SlotsDiffer(|to.data|, p, head); }
      }
      CopiedAll(from, next, low, head + 1, tail);
    }
  }

  /** A new ring holds everything that was unread when it was filled, and so everything still unread. */
  lemma CopyKeeps(s: State, purpose: Purpose, capacity: nat)
    requires Inv(s) && s.producer == PushCopy(purpose, capacity)
    ensures Inv(Produce(s, true)) && Produce(s, true) == Produce(s, false)
  {
    hide SlotOf, Copied, ConsumerOk;
    CopiedAll(Current(s.sh), Block(seq(capacity, _ => 0)), s.sh.head, s.sh.head, s.sh.tail);
  }

  /** Writing behind the tail touches no unread item, whatever block a consumer still looks at. */
  lemma WriteKeeps(s: State, items: seq<Item>, done: nat)
    requires Inv(s) && s.producer == PushWrite(items, done) && done < |items|
    ensures Inv(Produce(s, true))
  {
    hide SlotOf;
    var sh, t := s.sh, Produce(s, true).sh;
    var p, c := sh.tail + done, Capacity(sh);
    forall q: nat | sh.head <= q < p ensures SlotOf(q, c) != SlotOf(p, c) { SlotsDiffer(c, q, p); }
    forall i | 0 <= i < |s.consumers| ensures ConsumerOk(t, s.h, s.consumers[i]) {
      ConsumerFrame(sh, s.h, t, s.h, s.consumers[i]);
    }
  }

  lemma PublishKeeps(s: State, purpose: Purpose, ring: Block)
    requires Inv(s) && s.producer == PushPublish(purpose, ring)
    ensures Inv(Produce(s, true))
  {
    hide SlotOf;
    var t := Produce(s, true).sh;
    forall i | 0 <= i < |s.consumers| ensures ConsumerOk(t, s.h, s.consumers[i]) {
      ConsumerFrame(s.sh, s.h, t, s.h, s.consumers[i]);
    }
  }

  lemma TailKeeps(s: State, items: seq<Item>)
    requires Inv(s) && s.producer == PushWrite(items, |items|)
    ensures Inv(Produce(s, true))
  {
    hide SlotOf;
    var t := Produce(s, true);
    forall i | 0 <= i < |s.consumers| ensures ConsumerOk(t.sh, t.h, s.consumers[i]) {
      ConsumerFrame(s.sh, s.h, t.sh, t.h, s.consumers[i]);
    }
    forall p: nat | t.sh.head <= p < t.sh.tail ensures Current(t.sh).data[SlotOf(p, Capacity(t.sh))] == t.h.pushed[p] {
      if p >= s.sh.tail { assert Current(s.sh).data[SlotOf(s.sh.tail + (p - s.sh.tail), Capacity(s.sh))] == items[p - s.sh.tail]; }
    }
  }

  lemma ReserveKeeps(s: State, purpose: Purpose, granted: bool)
    requires Inv(s) && s.producer == PushReserve(purpose)
    ensures Inv(Produce(s, granted))
  {
    hide SlotOf, ConsumerOk;
  }

  lemma ProduceKeeps(s: State, granted: bool)
    requires Inv(s)
    ensures Inv(Produce(s, granted))
  {
    hide SlotOf, ConsumerOk, SharedOk;
    match s.producer
    case PushIdle =>
    case PushLoadHead(items) => LoadHeadKeeps(s, items, granted);
    case PushReserve(purpose) => ReserveKeeps(s, purpose, granted);
    case PushCopy(purpose, capacity) => CopyKeeps(s, purpose, capacity);
    case PushPublish(purpose, ring) => PublishKeeps(s, purpose, ring);
    case PushWrite(items, done) => if done < |items| { WriteKeeps(s, items, done); } else { TailKeeps(s, items); }
  }

  lemma LoadHeadKeeps(s: State, items: seq<Item>, granted: bool)
    requires Inv(s) && s.producer == PushLoadHead(items)
    ensures Inv(Produce(s, granted))
  {
    hide SlotOf, ConsumerOk;
  }

  lemma StartKeeps(s: State, items: seq<Item>)
    requires Inv(s)
    ensures Inv(Start(s, items))
  {
    hide SlotOf, ConsumerOk;
  }

  lemma StartReserveKeeps(s: State, toSize: int)
    requires Inv(s)
    ensures Inv(Next(s, Reserve(toSize)))
  {
    hide SlotOf, ConsumerOk, SharedOk;
  }

  lemma ConsumerStepKeeps(s: State, i: nat)
    requires Inv(s) && i < |s.consumers|
    ensures Inv(Next(s, ConsumerStep(i)))
  {
    hide SlotOf, ConsumerOk, SharedOk, ProducerOk, Consume;
    var t := Next(s, ConsumerStep(i));
    ConsumeKeeps(s.sh, s.h, s.consumers[i]);
    HeadWithin(t.sh, t.h);
    ProducerFrame(s.sh, t.sh, s.h, t.h, s.estimateHead, s.producer);
    forall j | 0 <= j < |s.consumers| && j != i ensures ConsumerOk(t.sh, t.h, s.consumers[j]) {
      ConsumerFrame(s.sh, s.h, t.sh, t.h, s.consumers[j]);
    }
  }

  lemma HeadWithin(sh: Shared, h: History)
    requires SharedOk(sh, h)
    ensures sh.head <= sh.tail
  {
  }

  lemma NextKeeps(s: State, a: Action)
    requires Inv(s)
    ensures Inv(Next(s, a))
  {
    hide Inv, Produce, Start;
    match a
    case Push(items) => StartKeeps(s, items);
    case Reserve(toSize) => StartReserveKeeps(s, toSize);
    case ProducerStep(granted) => ProduceKeeps(s, granted);
    case ConsumerStep(i) => if i < |s.consumers| { ConsumerStepKeeps(s, i); }
  }

  lemma {:induction false} EveryRun(limit: int, threads: nat, actions: seq<Action>)
    ensures Inv(Run(limit, threads, actions))
  {
    hide Inv, Next;
    if actions == [] {
      InitHolds(limit, threads);
    } else {
      EveryRun(limit, threads, actions[..|actions| - 1]);
      NextKeeps(Run(limit, threads, actions[..|actions| - 1]), actions[|actions| - 1]);
    }
  }

  lemma InitHolds(limit: int, threads: nat)
    ensures Inv(Init(limit, threads))
  {
  }

  // ---- theorems ----

  /**
   Exactly once, in order: in every run the winning swaps have returned precisely the items at the front of what was
   pushed, and what is left is in the current ring.
   */
  lemma ExactlyOnceFifo(limit: int, threads: nat, actions: seq<Action>)
    ensures var s := Run(limit, threads, actions);
      && s.sh.head <= s.sh.tail == |s.h.pushed| && s.h.popped == s.h.pushed[..s.sh.head]
      && (s.sh.tail > 0 ==> s.sh.blocks != [] && Holds(Current(s.sh), s.h.pushed, s.sh.head, s.sh.tail))
  {
    hide Run;
    EveryRun(limit, threads, actions);
  }

  /** A winning swap returns the item of its own position, however stale the block it read from. */
  lemma WinnerReturnsItsItem(limit: int, threads: nat, actions: seq<Action>, i: nat)
    requires var s := Run(limit, threads, actions); i < |s.consumers| && s.consumers[i].PopCas? && s.consumers[i].head == s.sh.head
    ensures var s := Run(limit, threads, actions);
      s.sh.head < |s.h.pushed| && Next(s, ConsumerStep(i)).h.popped == s.h.popped + [s.h.pushed[s.sh.head]]
  {
    hide Run;
    EveryRun(limit, threads, actions);
    var s := Run(limit, threads, actions);
    assert ConsumerOk(s.sh, s.h, s.consumers[i]);
  }

  /** A swap is lost only to another consumer that popped in the meantime. */
  lemma LoserWasOvertaken(limit: int, threads: nat, actions: seq<Action>, i: nat)
    requires var s := Run(limit, threads, actions); i < |s.consumers| && s.consumers[i].PopCas? && s.consumers[i].head != s.sh.head
    ensures Run(limit, threads, actions).consumers[i].head < Run(limit, threads, actions).sh.head
  {
    hide Run;
    EveryRun(limit, threads, actions);
    var s := Run(limit, threads, actions);
    assert ConsumerOk(s.sh, s.h, s.consumers[i]);
  }

  /** The queue is reported empty only if it was empty when the tail was loaded. */
  lemma EmptyIsTrue(limit: int, threads: nat, actions: seq<Action>, i: nat)
    requires var s := Run(limit, threads, actions); i < |s.consumers| && s.consumers[i].PopLoadTail? && s.sh.tail <= s.consumers[i].head
    ensures var s := Run(limit, threads, actions); s.sh.head == s.sh.tail && s.h.popped == s.h.pushed
  {
    hide Run;
    EveryRun(limit, threads, actions);
    var s := Run(limit, threads, actions);
    assert ConsumerOk(s.sh, s.h, s.consumers[i]);
  }
}
