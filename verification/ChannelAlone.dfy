/**
 What a call does when its thread is left alone: a close on a channel that is not closing publishes both barriers and
 completes, an operation whose slot is ready finishes, and in a quiet channel push and pop are those of a bounded queue.
 */
module ChannelAlone {
  import opened Arith
  import opened ChannelModel
  import opened ChannelInvariant
  import opened ChannelSteps
  import opened ChannelSleep
  import opened ChannelTheorems
  import opened ChannelDrain
  import opened ChannelTrace

  /** Only thread `i` moves, and only goes on. */
  ghost predicate Solo(s: State, i: nat, more: seq<(nat, Action)>, e: State) {
    WellShaped(s.sh) && e == Run(s, more) && forall k :: 0 <= k < |more| ==> more[k] == (i, Go)
  }

  lemma SoloStep(s: State, i: nat, more: seq<(nat, Action)>, e: State)
    requires WellShaped(s.sh) && Solo(Next(s, i, Go), i, more, e)
    ensures Solo(s, i, [(i, Go)] + more, e)
  {
    hide Next;
    assert Run(s, [(i, Go)][..0]) == s;
    RunAppend(s, [(i, Go)], more);
  }

  lemma SoloEnd(s: State, i: nat)
    requires WellShaped(s.sh)
    ensures Solo(s, i, [], s)
  {
  }

  // ---- close ----

  function Min(a: nat, b: nat): nat {
    if a <= b then a else b
  }

  /** The barriers a close places when the counters stand at `tail` and `head`. */
  function TailBarrierFor(tail: nat, head: nat, capacity: nat): nat {
    Min(tail, head + capacity)
  }

  function HeadBarrierFor(tail: nat, head: nat, capacity: nat, pushClose: bool): nat {
    if pushClose then TailBarrierFor(tail, head, capacity) else Min(head, TailBarrierFor(tail, head, capacity))
  }

  /** What a closer left alone since the channel had these counters has done so far. */
  ghost predicate ClosingAlone(s: State, i: nat, p: bool, t: nat, h: nat) {
    && WellShaped(s.sh) && i < |s.threads| && s.threads[i].Close?
    && s.sh.tail.ticket == t && s.sh.head.ticket == h
    && var l, sh := s.threads[i], s.sh;
       var tb, hb := TailBarrierFor(t, h, sh.capacity), HeadBarrierFor(t, h, sh.capacity, p);
       l.pushClose == p && match l.cpc
       case CIsClosed => !sh.closing.Any() && sh.lockRequested == sh.lockCompleted
       case CLockReq => !sh.closing.Any() && sh.lockRequested == sh.lockCompleted
       case CLockWait => !sh.closing.Any() && l.lock == sh.lockCompleted
       case CRecheck => !sh.closing.Any()
       case COrPush => true
       case CLoadTail => true
       case CLoadHead => l.tail == sh.tail
       case CStoreBarrier => l.tail == sh.tail && l.head == sh.head
       case CCasBarrier => l.tail == sh.tail && l.head == sh.head && l.tb == tb && sh.tailBarrier == tb
       case CReloadTail => l.tb == tb && sh.tailBarrier == tb
       case CLoadCancels => l.tb == tb && sh.tailBarrier == tb
       case COrPop => l.tb == tb && sh.tailBarrier == tb
       case CLoadHead2 => l.tb == tb && sh.tailBarrier == tb && !p
       case CStoreHead => l.tb == tb && sh.tailBarrier == tb && (p || l.head == sh.head)
       case CCasHead => sh.tailBarrier == tb && sh.headBarrier == hb && !p && l.head == sh.head
       case COrHead => sh.tailBarrier == tb && sh.headBarrier == hb && p
       case CUnlock => sh.tailBarrier == tb && sh.headBarrier == hb && sh.closing.closed
       case COrClosed => sh.tailBarrier == tb && sh.headBarrier == hb
       case _ => sh.tailBarrier == tb && sh.headBarrier == hb && l.cursor < l.to
  }

  function Stage(pc: ClosePc): nat {
    match pc
    case CIsClosed => 20
    case CLockReq => 19
    case CLockWait => 18
    case CRecheck => 17
    case COrPush => 16
    case CLoadTail => 15
    case CLoadHead => 14
    case CStoreBarrier => 13
    case CCasBarrier => 12
    case CReloadTail => 11
    case CLoadCancels => 10
    case COrPop => 9
    case CLoadHead2 => 8
    case CStoreHead => 7
    case CCasHead => 6
    case COrHead => 6
    case COrClosed => 2
    case CUnlock => 1
    case _ => 3
  }

  function WakePlace(pc: ClosePc): nat {
    match pc
    case CWakeOr => 4
    case CWakeLoad => 3
    case CWakeAnd => 2
    case _ => 1
  }

  /** The steps left: the stage, the ranges left to wake, the tickets left in the range and the place in its round. */
  ghost function Ranges(l: Local): nat
    requires l.Close?
  {
    if l.second then 0 else 1
  }

  ghost function TicketsLeft(l: Local): nat
    requires l.Close?
  {
    if l.cursor < l.to then l.to - l.cursor else 0
  }

  ghost predicate Fewer(l: Local, l': Local)
    requires l.Close? && l'.Close?
  {
    || Stage(l'.cpc) < Stage(l.cpc)
    || (Stage(l'.cpc) == Stage(l.cpc) == 3
        && (|| Ranges(l') < Ranges(l)
            || (Ranges(l') == Ranges(l)
                && (TicketsLeft(l') < TicketsLeft(l)
                    || (TicketsLeft(l') == TicketsLeft(l) && WakePlace(l'.cpc) < WakePlace(l.cpc))))))
  }

  ghost predicate ClosesFurther(s: State, s': State, i: nat, p: bool, t: nat, h: nat)
    requires i < |s.threads| && s.threads[i].Close?
  {
    && WellShaped(s'.sh) && s'.sh.capacity == s.sh.capacity && i < |s'.threads|
    && if s'.threads[i].Idle? then
         && s'.sh.closing.closed && s'.sh.tailBarrier == TailBarrierFor(t, h, s.sh.capacity)
         && s'.sh.headBarrier == HeadBarrierFor(t, h, s.sh.capacity, p) && s.threads[i].cpc.CUnlock?
       else ClosingAlone(s', i, p, t, h) && Fewer(s.threads[i], s'.threads[i])
  }

  lemma LooksFurther(s: State, i: nat, p: bool, t: nat, h: nat)
    requires ClosingAlone(s, i, p, t, h) && OnlyLooks(s.threads[i].cpc)
    ensures ClosesFurther(s, Goto(s, i, CloseAfterLoad(s.sh, s.threads[i])), i, p, t, h)
  {
    hide Slot;
  }

  lemma PublishesFurther(s: State, i: nat, p: bool, t: nat, h: nat)
    requires ClosingAlone(s, i, p, t, h) && Publishes(s.threads[i].cpc)
    ensures ClosesFurther(s, CloseNext(s, i, Go), i, p, t, h)
  {
    hide Slot;
  }

  lemma WakesFurther(s: State, i: nat, p: bool, t: nat, h: nat)
    requires ClosingAlone(s, i, p, t, h) && WakesUp(s.threads[i].cpc)
    ensures ClosesFurther(s, CloseNext(s, i, Go), i, p, t, h)
  {
    hide Slot;
  }

  predicate Begins(pc: ClosePc) {
    pc.CLockReq? || pc.COrPush? || pc.CStoreBarrier?
  }

  lemma BeginsFurther(s: State, i: nat, p: bool, t: nat, h: nat)
    requires ClosingAlone(s, i, p, t, h) && Begins(s.threads[i].cpc)
    ensures ClosesFurther(s, CloseNext(s, i, Go), i, p, t, h)
  {
    hide Slot, EnterRange, AfterWake;
  }

  lemma FlagsFurther(s: State, i: nat, p: bool, t: nat, h: nat)
    requires ClosingAlone(s, i, p, t, h)
    requires var pc := s.threads[i].cpc; !OnlyLooks(pc) && !WakesUp(pc) && !Publishes(pc) && !Begins(pc)
    ensures ClosesFurther(s, CloseNext(s, i, Go), i, p, t, h)
  {
    hide Slot, EnterRange, AfterWake;
  }

  lemma ClosesOnAlone(s: State, i: nat, p: bool, t: nat, h: nat)
    requires ClosingAlone(s, i, p, t, h)
    ensures ClosesFurther(s, Next(s, i, Go), i, p, t, h)
  {
    hide CloseNext, ClosesFurther;
    var pc := s.threads[i].cpc;
    if OnlyLooks(pc) {
      LookMoves(s, i, Go);
      LooksFurther(s, i, p, t, h);
    } else if WakesUp(pc) {
      WakesFurther(s, i, p, t, h);
    } else if Publishes(pc) {
      PublishesFurther(s, i, p, t, h);
    } else if Begins(pc) {
      BeginsFurther(s, i, p, t, h);
    } else {
      FlagsFurther(s, i, p, t, h);
    }
  }

  lemma {:induction false} CloserFinishesAlone(s: State, i: nat, p: bool, t: nat, h: nat)
      returns (more: seq<(nat, Action)>, e: State)
    requires ClosingAlone(s, i, p, t, h)
    ensures Solo(s, i, more, e) && i < |e.threads| && e.threads[i].Idle? && e.sh.closing.closed
    ensures e.sh.tailBarrier == TailBarrierFor(t, h, s.sh.capacity)
    ensures e.sh.headBarrier == HeadBarrierFor(t, h, s.sh.capacity, p)
    decreases Stage(s.threads[i].cpc), Ranges(s.threads[i]), TicketsLeft(s.threads[i]), WakePlace(s.threads[i].cpc)
  {
    hide Next, Run, Stage, WakePlace, TailBarrierFor, HeadBarrierFor;
    ClosesOnAlone(s, i, p, t, h);
    var s' := Next(s, i, Go);
    if s'.threads[i].Idle? {
      SoloEnd(s', i);
      SoloStep(s, i, [], s');
      more, e := [(i, Go)] + [], s';
    } else {
      assert s'.threads[i].Close?;
      more, e := CloserFinishesAlone(s', i, p, t, h);
      SoloStep(s, i, more, e);
      more := [(i, Go)] + more;
    }
  }

  lemma NobodyLocks(s: State)
    requires Safe(s) && LockAttended(s) && forall j: nat :: j < |s.threads| ==> !s.threads[j].Close?
    ensures s.sh.lockRequested == s.sh.lockCompleted
  {
    hide Safe;
    LockOrder(s);
    assert s.sh.lockCompleted < s.sh.lockRequested ==> HasLockTicket(s, s.sh.lockCompleted);
  }

  /** From every state of every run in which nothing is closing and no thread is inside a close, whatever else is going on:
      a thread that calls close and is left alone completes it, with the tail barrier at the smaller of tail and head plus
      capacity, and the head barrier there too for a push close and at the smaller of that and head for a soft one. */
  lemma CloseAlone(items: seq<Item>, n: nat, schedule: seq<(nat, Action)>, i: nat, p: bool) returns (more: seq<(nat, Action)>)
    requires |items| > 0 && i < |Run(Init(items, n), schedule).threads|
    requires var s := Run(Init(items, n), schedule);
      s.threads[i].Idle? && !s.sh.closing.Any() && forall j: nat :: j < |s.threads| ==> !s.threads[j].Close?
    ensures forall k :: 0 <= k < |more| ==> more[k] == (i, Go)
    ensures var s, e := Run(Init(items, n), schedule), Run(Init(items, n), schedule + [(i, StartClose(p))] + more);
      && i < |e.threads| && e.threads[i].Idle? && e.sh.closing.closed
      && e.sh.tailBarrier == TailBarrierFor(s.sh.tail.ticket, s.sh.head.ticket, |items|)
      && e.sh.headBarrier == HeadBarrierFor(s.sh.tail.ticket, s.sh.head.ticket, |items|, p)
  {
    hide Run, Init, Safe, LockAttended, TailBarrierFor, HeadBarrierFor;
    var s := Run(Init(items, n), schedule);
    EveryRunSafe(items, n, schedule);
    EveryRunLocked(items, n, schedule);
    NobodyLocks(s);
    AfterMore(items, n, schedule, (i, StartClose(p)));
    RunCapacity(Init(items, n), schedule);
    InitCapacity(items, n);
    var s' := Next(s, i, StartClose(p));
    var e;
    more, e := CloserFinishesAlone(s', i, p, s.sh.tail.ticket, s.sh.head.ticket);
    RunAppend(Init(items, n), schedule + [(i, StartClose(p))], more);
  }

  lemma InitCapacity(items: seq<Item>, n: nat)
    requires |items| > 0
    ensures Init(items, n).sh.capacity == |items|
  {
  }

  lemma EveryRunLocked(items: seq<Item>, n: nat, schedule: seq<(nat, Action)>)
    requires |items| > 0
    ensures LockAttended(Run(Init(items, n), schedule))
  {
    hide Safe, LockAttended, Run, Init;
    InitSafe(items, n);
    InitLock(items, n);
    RunLockAttended(Init(items, n), schedule);
  }

  // ---- an operation whose slot is ready ----

  /** The operation of thread `i` is going to record, or has recorded, its item under ticket `t`. */
  ghost predicate Delivers(s: State, i: nat, d: Side, t: nat, x: Item)
    requires WellShaped(s.sh)
  {
    && i < |s.threads| && s.threads[i].Op? && s.threads[i].side == d && s.threads[i].word.ticket == t
    && (d.PushSide? ==> s.threads[i].item == x)
    && (Transferred(s.threads[i], d) || (Holds(s.threads[i]) && !Past(s.sh, d, t) && Ready(s.sh, s.threads[i])))
  }

  ghost predicate SameCounters(sh: Shared, sh': Shared) {
    && sh'.tail == sh.tail && sh'.head == sh.head && sh'.tailBarrier == sh.tailBarrier && sh'.headBarrier == sh.headBarrier
    && sh'.closing == sh.closing && sh'.capacity == sh.capacity
  }

  lemma NotCancelled(s: State, i: nat)
    requires Safe(s) && i < |s.threads| && s.threads[i].Op? && !Past(s.sh, s.threads[i].side, s.threads[i].word.ticket)
    ensures !s.threads[i].pc.CountCancel? && !s.threads[i].pc.SubTicket?
  {
    hide SharedOk, TicketsOk, CountsOk, SleepersOk, CloseAttended, CarryOk, OwnOk, HoldOk, CloserOk, Slot, Want;
    assert ThreadOk(s.sh, s.h, i, s.threads[i]);
  }

  lemma LoadDelivers(s: State, i: nat, d: Side, t: nat, x: Item)
    requires WellShaped(s.sh) && Delivers(s, i, d, t, x) && Known(s.sh, s.threads[i]) && OnlyLoads(s.threads[i].pc)
    requires !s.threads[i].pc.Done? && !s.threads[i].pc.Asleep?
    ensures Delivers(Goto(s, i, AfterLoad(s.sh, s.threads[i], Go)), i, d, t, x)
  {
    hide Slot, Want;
  }

  lemma ChangeDelivers(s: State, i: nat, d: Side, t: nat, x: Item)
    requires WellShaped(s.sh) && Delivers(s, i, d, t, x) && Known(s.sh, s.threads[i]) && !OnlyLoads(s.threads[i].pc)
    requires !s.threads[i].pc.CountCancel? && !s.threads[i].pc.SubTicket?
    ensures var s' := OpNext(s, i, Go); Delivers(s', i, d, t, x) && SameCounters(s.sh, s'.sh)
  {
    hide Slot, Want, AfterLoad;
  }

  lemma DeliverStep(s: State, i: nat, d: Side, t: nat, x: Item)
    requires Safe(s) && WellShaped(s.sh) && Delivers(s, i, d, t, x) && !s.threads[i].pc.Done? && !s.threads[i].pc.Asleep?
    ensures var s' := Next(s, i, Go); Delivers(s', i, d, t, x) && SameCounters(s.sh, s'.sh)
  {
    hide Safe, OpNext, AfterLoad, Known, Slot, Want, Delivers;
    DeliversFacts(s, i, d, t, x);
    OpIsKnown(s, i);
    if OnlyLoads(s.threads[i].pc) {
      LoadMoves(s, i, Go);
      LoadDelivers(s, i, d, t, x);
    } else {
      if !Past(s.sh, s.threads[i].side, s.threads[i].word.ticket) { NotCancelled(s, i); }
      ChangeDelivers(s, i, d, t, x);
    }
  }

  lemma DeliversFacts(s: State, i: nat, d: Side, t: nat, x: Item)
    requires WellShaped(s.sh) && Delivers(s, i, d, t, x)
    ensures i < |s.threads| && s.threads[i].Op? && s.threads[i].side == d && s.threads[i].word.ticket == t
    ensures Transferred(s.threads[i], d) || !Past(s.sh, d, t)
    ensures !s.threads[i].pc.Asleep? && Known(s.sh, s.threads[i]) ==> OnItsWay(s.sh, s.threads[i])
    ensures s.threads[i].pc.Done? ==> s.threads[i].res.Ok?
  {
    hide Slot, Want;
  }

  /** Left alone, such an operation answers that it succeeded. */
  lemma {:induction false} DeliversAlone(s: State, i: nat, d: Side, t: nat, x: Item) returns (more: seq<(nat, Action)>, e: State)
    requires Safe(s) && WellShaped(s.sh) && Delivers(s, i, d, t, x) && !s.threads[i].pc.Asleep?
    ensures Solo(s, i, more, e) && Safe(e) && SameCounters(s.sh, e.sh) && OthersIdle(s, e, i)
    ensures Delivers(e, i, d, t, x) && e.threads[i].pc.Done? && e.threads[i].res.Ok?
    decreases Left(s.sh, s.threads[i])
  {
    hide Safe, Next, Run, Delivers, Left, OnItsWay, Progresses, Known;
    DeliversFacts(s, i, d, t, x);
    OpIsKnown(s, i);
    if s.threads[i].pc.Done? {
      SoloEnd(s, i);
      more, e := [], s;
    } else {
      var s' := Next(s, i, Go);
      OpProgress(s, i);
      DeliverStep(s, i, d, t, x);
      NextSafe(s, i, Go);
      DeliversFacts(s', i, d, t, x);
      OpIsKnown(s', i);
      ProgressLeaves(s, s', i);
      OthersStayIdle(s, i, Go);
      more, e := DeliversAlone(s', i, d, t, x);
      SoloStep(s, i, more, e);
      more := [(i, Go)] + more;
    }
  }

  /** A thread that goes on does not fall asleep. */
  lemma ProgressLeaves(s: State, s': State, i: nat)
    requires WellShaped(s.sh) && WellShaped(s'.sh) && i < |s.threads| == |s'.threads| && s.threads[i].Op? && Progresses(s, s', i)
    ensures s'.threads[i].Idle? || (s'.threads[i].Op? && Left(s'.sh, s'.threads[i]) < Left(s.sh, s.threads[i]))
    ensures s'.threads[i].Op? && PcOk(s'.threads[i]) ==> !s'.threads[i].pc.Asleep?
  {
    hide Slot, Want, Left;
  }

  ghost predicate OthersIdle(s: State, s': State, i: nat) {
    |s'.threads| == |s.threads| && forall j: nat :: j < |s.threads| && j != i && s.threads[j].Idle? ==> s'.threads[j].Idle?
  }

  lemma OthersStayIdle(s: State, i: nat, a: Action)
    requires WellShaped(s.sh) && i < |s.threads|
    ensures OthersIdle(s, Next(s, i, a), i)
  {
    hide Next;
    forall j: nat | j < |s.threads| && j != i && s.threads[j].Idle? ensures Next(s, i, a).threads[j].Idle? {
      Others(s, i, a, j);
    }
  }

  // ---- a quiet channel is a bounded queue ----

  /** Nobody is using the channel and nothing is closing. */
  ghost predicate Quiet(s: State) {
    Safe(s) && !s.sh.closing.Any() && forall j: nat :: j < |s.threads| ==> s.threads[j].Idle?
  }

  /** The items stored and not taken, oldest first. */
  ghost function Contents(s: State): (r: seq<Item>) {
    var h, t := s.sh.head.ticket, s.sh.tail.ticket;
    if h <= t then seq(t - h, k => if h + k in s.h.stored then s.h.stored[h + k] else 0) else []
  }

  lemma QuietLimits(s: State)
    requires Quiet(s)
    ensures Limit(s.sh, PushSide) == s.sh.tail.ticket && Limit(s.sh, PopSide) == s.sh.head.ticket
    ensures forall d, t: nat :: IsDone(s.sh, d, t) <==> t < Limit(s.sh, d)
    ensures forall d, t: nat :: t in Log(s.h, d) <==> t < Limit(s.sh, d)
  {
    ShutIsClosing(s);
    QuietTickets(s);
    hide TicketsOk, CountsOk, ThreadOk, SleepersOk, CloseAttended, ItemsOk, NotesOk, BarriersOk, IsDone, Reached;
  }

  /** Where the next push and the next pop find their slots. */
  lemma QuietFacts(s: State)
    requires Quiet(s)
    ensures WellShaped(s.sh) && |Contents(s)| == s.sh.tail.ticket - s.sh.head.ticket <= s.sh.capacity
    ensures SlotReady(s.sh, PushSide, s.sh.tail.ticket) <==> |Contents(s)| < s.sh.capacity
    ensures SlotReady(s.sh, PopSide, s.sh.head.ticket) <==> |Contents(s)| > 0
  {
    SafeShape(s);
    QuietLimits(s);
    QuietSlots(s.sh, s.h);
    WantShape(s.sh.capacity);
    var h, t, C := s.sh.head.ticket, s.sh.tail.ticket, s.sh.capacity;
    if t == h + C { LapWant(C, t); }
    hide Safe, Limit, Slot, Want;
    assert t == h + C ==> h < t;
  }

  ghost predicate SlotReady(sh: Shared, d: Side, t: nat)
    requires WellShaped(sh)
  {
    sh.ids[Slot(sh.capacity, t)].phase == Want(sh.capacity, d, t)
  }

  /** The call for an operation of a side. */
  function CallFor(d: Side, try: bool, x: Item): Action {
    if d.PushSide? then if try then StartTryPush(x) else StartPush(x) else if try then StartTryPop(x) else StartPop(x)
  }

  /** A blocking operation takes the next ticket. */
  lemma TakesTicket(s: State, i: nat, d: Side, x: Item) returns (s2: State)
    requires WellShaped(s.sh) && i < |s.threads| && s.threads[i].Idle?
    ensures s2 == Next(Next(s, i, CallFor(d, false, x)), i, Go) && OthersIdle(s, s2, i) && |s2.threads| == |s.threads|
    ensures var c := Counter(s.sh, d);
      && s2.sh == WithCounter(s.sh, d, c.(ticket := c.ticket + 1))
      && s2.threads[i].Op? && s2.threads[i].pc.LoadId? && s2.threads[i].side == d && !s2.threads[i].try
      && s2.threads[i].word == c && s2.threads[i].item == x
  {
    hide Slot, Want, AfterLoad;
    s2 := Next(Next(s, i, CallFor(d, false, x)), i, Go);
  }

  /** A try operation on an open channel looks and goes for the next ticket only if its slot is ready. */
  lemma TriesTicket(s: State, i: nat, d: Side, x: Item) returns (s4: State)
    requires WellShaped(s.sh) && i < |s.threads| && s.threads[i].Idle? && !s.sh.closing.Any()
    ensures s4 == Next(Next(Next(Next(s, i, CallFor(d, true, x)), i, Go), i, Go), i, Go)
    ensures s4.sh == s.sh && s4.h == s.h && OthersIdle(s, s4, i)
    ensures var l, c := s4.threads[i], Counter(s.sh, d);
      && l.Op? && l.side == d && l.try && l.word == c && l.item == x
      && (if SlotReady(s.sh, d, c.ticket) then l.pc.TryCas? else l.pc.Done? && l.res.Unavailable?)
  {
    hide Slot, Want;
    s4 := Next(Next(Next(Next(s, i, CallFor(d, true, x)), i, Go), i, Go), i, Go);
  }

  lemma WinsTicket(s: State, i: nat)
    requires WellShaped(s.sh) && i < |s.threads| && s.threads[i].Op? && s.threads[i].pc.TryCas?
    requires Counter(s.sh, s.threads[i].side) == s.threads[i].word
    ensures var s', l := Next(s, i, Go), s.threads[i];
      && s'.sh == WithCounter(s.sh, l.side, l.word.(ticket := l.word.ticket + 1)) && s'.threads[i] == l.(pc := Copy)
      && OthersIdle(s, s', i)
  {
    hide Slot, Want, AfterLoad;
  }

  /** The operation answered that it succeeded, with the next ticket of its side. */
  ghost predicate Succeeded(s: State, e: State, i: nat, d: Side, x: Item) {
    && Safe(e) && i < |e.threads| && e.threads[i].Op? && e.threads[i].pc.Done? && e.threads[i].res.Ok?
    && e.threads[i].side == d && e.threads[i].word.ticket == Counter(s.sh, d).ticket && (d.PushSide? ==> e.threads[i].item == x)
    && e.sh.tail.ticket == s.sh.tail.ticket + (if d.PushSide? then 1 else 0)
    && e.sh.head.ticket == s.sh.head.ticket + (if d.PopSide? then 1 else 0)
    && !e.sh.closing.Any() && OthersIdle(s, e, i)
  }

  lemma OpenIsNotPast(s: State, d: Side, t: nat)
    requires Safe(s) && !s.sh.closing.Any()
    ensures !Past(s.sh, d, t)
  {
    ShutIsClosing(s);
    hide Safe;
  }

  lemma OthersIdleTwice(s: State, m: State, e: State, i: nat)
    requires OthersIdle(s, m, i) && OthersIdle(m, e, i)
    ensures OthersIdle(s, e, i)
  {
  }

  lemma BlockingSucceeds(s: State, i: nat, d: Side, x: Item) returns (more: seq<(nat, Action)>, e: State)
    requires Quiet(s) && WellShaped(s.sh) && i < |s.threads| && SlotReady(s.sh, d, Counter(s.sh, d).ticket)
    ensures Solo(Next(s, i, CallFor(d, false, x)), i, more, e) && Succeeded(s, e, i, d, x)
  {
    hide Safe, Next, Run, Slot, Want, Solo;
    var a := CallFor(d, false, x);
    var s1 := Next(s, i, a);
    var s2 := TakesTicket(s, i, d, x);
    NextSafe(s, i, a);
    NextSafe(s1, i, Go);
    OpenIsNotPast(s2, d, Counter(s.sh, d).ticket);
    more, e := DeliversAlone(s2, i, d, Counter(s.sh, d).ticket, x);
    OthersIdleTwice(s, s2, e, i);
    SoloStep(s1, i, more, e);
    more := [(i, Go)] + more;
  }

  lemma TrySucceeds(s: State, i: nat, d: Side, x: Item) returns (more: seq<(nat, Action)>, e: State)
    requires Quiet(s) && WellShaped(s.sh) && i < |s.threads| && SlotReady(s.sh, d, Counter(s.sh, d).ticket)
    ensures Solo(Next(s, i, CallFor(d, true, x)), i, more, e) && Succeeded(s, e, i, d, x)
  {
    hide Safe, Next, Run, Slot, Want, Solo;
    var a := CallFor(d, true, x);
    var s1 := Next(s, i, a);
    var s2 := Next(s1, i, Go);
    var s3 := Next(s2, i, Go);
    var s4 := TriesTicket(s, i, d, x);
    var s5 := Next(s4, i, Go);
    WinsTicket(s4, i);
    NextSafe(s, i, a);
    NextSafe(s1, i, Go);
    NextSafe(s2, i, Go);
    NextSafe(s3, i, Go);
    NextSafe(s4, i, Go);
    OpenIsNotPast(s5, d, Counter(s.sh, d).ticket);
    more, e := DeliversAlone(s5, i, d, Counter(s.sh, d).ticket, x);
    OthersIdleTwice(s, s4, s5, i);
    OthersIdleTwice(s, s5, e, i);
    SoloStep(s4, i, more, e);
    SoloStep(s3, i, [(i, Go)] + more, e);
    SoloStep(s2, i, [(i, Go)] + ([(i, Go)] + more), e);
    SoloStep(s1, i, [(i, Go)] + ([(i, Go)] + ([(i, Go)] + more)), e);
    more := [(i, Go)] + ([(i, Go)] + ([(i, Go)] + ([(i, Go)] + more)));
  }

  /** The last step of a call that answered changes nothing but its thread. */
  lemma Returns(s: State, e: State, i: nat, d: Side, x: Item)
    requires Quiet(s) && Succeeded(s, e, i, d, x) && |e.threads| == |s.threads|
    ensures var f := Next(e, i, Go); Quiet(f) && f.sh == e.sh && f.h == e.h
  {
    NextSafe(e, i, Go);
    SafeShape(e);
    hide Safe, AfterLoad;
    LoadMoves(e, i, Go);
    DoneEnds(e.sh, e.threads[i], Go);
  }

  lemma AnsweredItem(e: State, i: nat)
    requires Safe(e) && i < |e.threads| && e.threads[i].Op? && e.threads[i].pc.Done? && e.threads[i].res.Ok?
    ensures var l := e.threads[i]; l.word.ticket in Log(e.h, l.side) && Log(e.h, l.side)[l.word.ticket] == l.item
    ensures forall t: nat :: t in e.h.taken ==> t in e.h.stored && e.h.taken[t] == e.h.stored[t]
  {
    hide TicketsOk, CountsOk, SleepersOk, CloseAttended, CarryOk, PastOk, HoldOk, CloserOk, ItemsOk, NotesOk, Slot, Want;
    assert ThreadOk(e.sh, e.h, i, e.threads[i]);
  }

  lemma StoredStays(s: State, f: State, t: nat)
    requires Quiet(s) && Extends(s, f) && t < s.sh.tail.ticket
    ensures t in s.h.stored && t in f.h.stored && f.h.stored[t] == s.h.stored[t]
  {
    QuietLimits(s);
    hide Quiet, Limit, IsDone;
    assert t in Log(s.h, PushSide);
  }

  lemma Enqueued(s: State, f: State, x: Item)
    requires Quiet(s) && Quiet(f) && Extends(s, f)
    requires f.sh.tail.ticket == s.sh.tail.ticket + 1 && f.sh.head.ticket == s.sh.head.ticket
    requires s.sh.tail.ticket in f.h.stored && f.h.stored[s.sh.tail.ticket] == x
    ensures Contents(f) == Contents(s) + [x]
  {
    hide Quiet, Extends;
    QuietFacts(s);
    forall t: nat | t < s.sh.tail.ticket ensures t in s.h.stored && t in f.h.stored && f.h.stored[t] == s.h.stored[t] {
      StoredStays(s, f, t);
    }
  }

  lemma Dequeued(s: State, f: State, y: Item)
    requires Quiet(s) && Quiet(f) && Extends(s, f)
    requires f.sh.tail.ticket == s.sh.tail.ticket && f.sh.head.ticket == s.sh.head.ticket + 1
    requires s.sh.head.ticket in f.h.stored && f.h.stored[s.sh.head.ticket] == y
    ensures Contents(s) == [y] + Contents(f)
  {
    hide Quiet, Extends;
    QuietFacts(s);
    QuietFacts(f);
    forall t: nat | t < s.sh.tail.ticket ensures t in s.h.stored && t in f.h.stored && f.h.stored[t] == s.h.stored[t] {
      StoredStays(s, f, t);
    }
  }

  lemma CallExtends(s: State, i: nat, a: Action, more: seq<(nat, Action)>, e: State)
    requires Safe(s) && WellShaped(s.sh) && i < |s.threads| && Solo(Next(s, i, a), i, more, e)
    ensures Extends(s, e) && e == Run(s, [(i, a)] + more)
  {
    hide Safe, Next, Extends;
    assert Run(s, [(i, a)][..0]) == s;
    RunAppend(s, [(i, a)], more);
    RunExtends(s, [(i, a)] + more);
  }

  /** In a quiet state of any run, with room for one more item, a push or try push left alone answers that it succeeded
      and leaves a quiet channel with its argument at the end. */
  lemma PushEnqueues(items: seq<Item>, n: nat, schedule: seq<(nat, Action)>, i: nat, try: bool, x: Item)
      returns (more: seq<(nat, Action)>)
    requires |items| > 0 && i < |Run(Init(items, n), schedule).threads| && Quiet(Run(Init(items, n), schedule))
    requires |Contents(Run(Init(items, n), schedule))| < |items|
    ensures forall k :: 0 <= k < |more| ==> more[k] == (i, Go)
    ensures var s := Run(Init(items, n), schedule);
      var e := Run(Init(items, n), schedule + ([(i, CallFor(PushSide, try, x))] + more));
      && Succeeded(s, e, i, PushSide, x) && Quiet(Next(e, i, Go)) && Contents(Next(e, i, Go)) == Contents(s) + [x]
  {
    hide Safe, Next, Run, Init, Contents;
    var s := Run(Init(items, n), schedule);
    CapacityIs(items, n, schedule);
    QuietFacts(s);
    var e;
    if try { more, e := TrySucceeds(s, i, PushSide, x); } else { more, e := BlockingSucceeds(s, i, PushSide, x); }
    CallExtends(s, i, CallFor(PushSide, try, x), more, e);
    RunAppend(Init(items, n), schedule, [(i, CallFor(PushSide, try, x))] + more);
    Returns(s, e, i, PushSide, x);
    AnsweredItem(e, i);
    Enqueued(s, Next(e, i, Go), x);
  }

  /** With an item in it, a pop or try pop left alone answers with the first one and leaves the others. */
  lemma PopDequeues(items: seq<Item>, n: nat, schedule: seq<(nat, Action)>, i: nat, try: bool, space: Item)
      returns (more: seq<(nat, Action)>)
    requires |items| > 0 && i < |Run(Init(items, n), schedule).threads| && Quiet(Run(Init(items, n), schedule))
    requires Contents(Run(Init(items, n), schedule)) != []
    ensures forall k :: 0 <= k < |more| ==> more[k] == (i, Go)
    ensures var s := Run(Init(items, n), schedule);
      var e := Run(Init(items, n), schedule + ([(i, CallFor(PopSide, try, space))] + more));
      && Succeeded(s, e, i, PopSide, space) && Quiet(Next(e, i, Go))
      && Contents(s) == [e.threads[i].item] + Contents(Next(e, i, Go))
  {
    hide Safe, Next, Run, Init, Contents;
    var s := Run(Init(items, n), schedule);
    QuietFacts(s);
    var e;
    if try { more, e := TrySucceeds(s, i, PopSide, space); } else { more, e := BlockingSucceeds(s, i, PopSide, space); }
    CallExtends(s, i, CallFor(PopSide, try, space), more, e);
    RunAppend(Init(items, n), schedule, [(i, CallFor(PopSide, try, space))] + more);
    Returns(s, e, i, PopSide, space);
    AnsweredItem(e, i);
    Dequeued(s, Next(e, i, Go), e.threads[i].item);
  }

  lemma CapacityIs(items: seq<Item>, n: nat, schedule: seq<(nat, Action)>)
    requires |items| > 0
    ensures Run(Init(items, n), schedule).sh.capacity == |items|
  {
    hide Run;
    RunCapacity(Init(items, n), schedule);
  }

  lemma TryUnavailable(s: State, i: nat, d: Side, x: Item) returns (more: seq<(nat, Action)>, e: State)
    requires Quiet(s) && WellShaped(s.sh) && i < |s.threads| && !SlotReady(s.sh, d, Counter(s.sh, d).ticket)
    ensures Solo(Next(s, i, CallFor(d, true, x)), i, more, e) && e.sh == s.sh && e.h == s.h
    ensures i < |e.threads| && e.threads[i].Op? && e.threads[i].pc.Done? && e.threads[i].res.Unavailable?
  {
    hide Safe, Next, Run, Slot, Want, Solo, CallFor;
    var g, s1 := (i, Go), Next(s, i, CallFor(d, true, x));
    var s2 := Next(s1, i, Go);
    var s3 := Next(s2, i, Go);
    e := TriesTicket(s, i, d, x);
    SoloEnd(e, i);
    SoloStep(s3, i, [], e);
    SoloStep(s2, i, [g] + [], e);
    SoloStep(s1, i, [g] + ([g] + []), e);
    more := [g] + ([g] + ([g] + []));
  }

  /** A try operation that finds no room, or no item, says so and leaves everything as it was. */
  lemma TryGivesUp(items: seq<Item>, n: nat, schedule: seq<(nat, Action)>, i: nat, d: Side, x: Item)
      returns (more: seq<(nat, Action)>)
    requires |items| > 0 && i < |Run(Init(items, n), schedule).threads| && Quiet(Run(Init(items, n), schedule))
    requires |Contents(Run(Init(items, n), schedule))| == if d.PushSide? then |items| else 0
    ensures forall k :: 0 <= k < |more| ==> more[k] == (i, Go)
    ensures var s := Run(Init(items, n), schedule);
      var e := Run(Init(items, n), schedule + ([(i, CallFor(d, true, x))] + more));
      && i < |e.threads| && e.threads[i].Op? && e.threads[i].pc.Done? && e.threads[i].res.Unavailable?
      && e.sh == s.sh && e.h == s.h
  {
    hide Safe, Next, Run, Init, Contents, Slot, Want;
    var s := Run(Init(items, n), schedule);
    CapacityIs(items, n, schedule);
    QuietFacts(s);
    var e;
    more, e := TryUnavailable(s, i, d, x);
    CallExtends(s, i, CallFor(d, true, x), more, e);
    RunAppend(Init(items, n), schedule, [(i, CallFor(d, true, x))] + more);
  }

  /** A blocking one takes its ticket and falls asleep on its slot. */
  lemma BlockingSleeps(s: State, i: nat, d: Side, x: Item) returns (more: seq<(nat, Action)>, e: State)
    requires Quiet(s) && WellShaped(s.sh) && i < |s.threads| && !SlotReady(s.sh, d, Counter(s.sh, d).ticket)
    ensures Solo(Next(s, i, CallFor(d, false, x)), i, more, e)
    ensures i < |e.threads| && e.threads[i].Op? && e.threads[i].pc.Asleep? && e.threads[i].side == d
    ensures e.threads[i].word.ticket == Counter(s.sh, d).ticket && e.h.stored == s.h.stored && e.h.taken == s.h.taken
  {
    hide Safe, Run, Slot, Want, Next, Solo, CallFor;
    var s1 := Next(s, i, CallFor(d, false, x));
    var s2 := TakesTicket(s, i, d, x);
    var g := (i, Go);
    e := FallsAsleep(s2, i);
    TicketRecords(s, i, d, x);
    SoloEnd(e, i);
    var s3 := Next(s2, i, Go);
    var s4 := Next(s3, i, Go);
    var s5 := Next(s4, i, Go);
    SoloStep(s5, i, [], e);
    SoloStep(s4, i, [g] + [], e);
    SoloStep(s3, i, [g] + ([g] + []), e);
    SoloStep(s2, i, [g] + ([g] + ([g] + [])), e);
    SoloStep(s1, i, [g] + ([g] + ([g] + ([g] + []))), e);
    more := [g] + ([g] + ([g] + ([g] + ([g] + []))));
  }

  lemma TicketRecords(s: State, i: nat, d: Side, x: Item)
    requires WellShaped(s.sh) && i < |s.threads| && s.threads[i].Idle?
    ensures var e := Next(Next(s, i, CallFor(d, false, x)), i, Go); e.h.stored == s.h.stored && e.h.taken == s.h.taken
  {
    hide Slot, Want, AfterLoad;
  }

  lemma FallsAsleep(s: State, i: nat) returns (e: State)
    requires WellShaped(s.sh) && i < |s.threads| && s.threads[i].Op? && s.threads[i].pc.LoadId? && !s.threads[i].try
    requires !s.sh.closing.Any() && !SlotReady(s.sh, s.threads[i].side, s.threads[i].word.ticket)
    ensures e == Next(Next(Next(Next(s, i, Go), i, Go), i, Go), i, Go)
    ensures i < |e.threads| && e.threads[i].Op? && e.threads[i].pc.Asleep? && e.h == s.h
    ensures e.threads[i].side == s.threads[i].side && e.threads[i].word == s.threads[i].word
  {
    hide Slot, Want;
    e := Next(Next(Next(Next(s, i, Go), i, Go), i, Go), i, Go);
  }
}
