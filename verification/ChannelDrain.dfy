/**
 A closed channel drains: from every reachable state in which a close is complete, the threads can all finish what they
 are doing, one after the other, without a new operation and without a spurious wake-up.
 */
module ChannelDrain {
  import opened Arith
  import opened ChannelModel
  import opened ChannelInvariant
  import opened ChannelSteps
  import opened ChannelSleep
  import opened ChannelTheorems

  // ---- an operation that needs nobody else ----

  ghost predicate Ready(sh: Shared, l: Local)
    requires WellShaped(sh) && l.Op?
  {
    sh.ids[Slot(sh.capacity, l.word.ticket)].phase == Want(sh.capacity, l.side, l.word.ticket)
  }

  /** The operation finishes if it is left to run alone. */
  ghost predicate OnItsWay(sh: Shared, l: Local)
    requires WellShaped(sh)
  {
    && l.Op?
    && (|| l.try
        || (!Holds(l) && !l.pc.Faa?)
        || (Holds(l) && !l.pc.Asleep? && ((Past(sh, l.side, l.word.ticket) && sh.closing.closed) || Ready(sh, l))))
  }

  /** What the invariant tells about an operation. */
  ghost predicate Known(sh: Shared, l: Local)
    requires WellShaped(sh) && l.Op?
  {
    var past := Past(sh, l.side, l.word.ticket);
    && PcOk(l) && (past ==> sh.closing.Any()) && ((l.pc.LoadHead? || l.pc.LoadBarrier?) && l.saw ==> Shut(sh, l.side))
    && (l.pc.Copy? || l.pc.Exchange? ==> Ready(sh, l))
    && (IsWaiting(l) ==> l.curr.phase != Want(sh.capacity, l.side, l.word.ticket))
    && (past && !l.try && Unaware(sh, l) ==> l.curr.phase != Want(sh.capacity, l.side, l.word.ticket))
    && (past && sh.closing.closed && l.pc.FutexWait? ==>
          sh.ids[Slot(sh.capacity, l.word.ticket)] != l.curr.(waiting := true))
  }

  /** The operation loaded its flags before the barrier was published and will not notice it this time. */
  ghost predicate Unaware(sh: Shared, l: Local)
    requires l.Op?
  {
    || (l.pc.LoadHead? && l.side.PushSide? && !l.saw && !sh.head.pushClosed)
    || (l.pc.LoadBarrier? && !l.saw)
  }

  /** It has to go round once more before it finishes. */
  ghost predicate GoesRound(sh: Shared, l: Local)
    requires WellShaped(sh) && l.Op?
  {
    && !l.try && (l.pc.LoadClosing? || l.pc.LoadTail? || l.pc.LoadHead? || l.pc.LoadBarrier?)
    && if Past(sh, l.side, l.word.ticket) then Unaware(sh, l)
       else l.curr.phase != Want(sh.capacity, l.side, l.word.ticket)
  }

  function Place(pc: OpPc): nat {
    match pc
    case OrWaiting => 14
    case FutexWait => 13
    case LoadWord => 13
    case LoadId => 12
    case LoadClosing => 11
    case LoadTail => 10
    case LoadHead => 9
    case LoadBarrier => 8
    case TryCas => 7
    case Copy => 6
    case CountCancel => 6
    case Exchange => 5
    case SubTicket => 5
    case Wake => 3
    case Done => 2
    case _ => 0
  }

  /** A bound on the steps it still takes alone. */
  ghost function Left(sh: Shared, l: Local): nat
    requires WellShaped(sh) && l.Op?
  {
    Place(l.pc) + if GoesRound(sh, l) then 20 else 0
  }

  lemma LoadProgress(sh: Shared, l: Local)
    requires WellShaped(sh) && OnItsWay(sh, l) && Known(sh, l) && OnlyLoads(l.pc)
    ensures var r := AfterLoad(sh, l, Go); r.Idle? || (OnItsWay(sh, r) && Left(sh, r) < Left(sh, l))
  {
    hide Slot, Want;
  }

  lemma ClosedIsShut(s: State)
    requires Safe(s) && s.sh.closing.closed
    ensures Shut(s.sh, PushSide) && Shut(s.sh, PopSide)
    ensures s.sh.tailBarrier <= s.sh.tail.ticket && s.sh.headBarrier <= s.sh.tailBarrier
    ensures Covered(s.sh.capacity, s.sh.headBarrier, s.h.shutHead, s.h.notifiedHead)
    ensures Covered(s.sh.capacity, s.sh.tailBarrier, s.h.shutTail, s.h.notifiedTail)
  {
    hide TicketsOk, CountsOk, ThreadOk, SleepersOk, CloseAttended, LogsOk, ItemsOk, Slot, Covered;
  }

  /** A complete close has visited the slot of every operation it turned away. */
  lemma Visited(s: State, d: Side, t: nat)
    requires Safe(s) && s.sh.closing.closed && Past(s.sh, d, t) && t < ShutAt(s.h, d)
    ensures Slot(s.sh.capacity, t) in Notified(s.h, d)
  {
    hide Safe, Slot;
    ClosedIsShut(s);
  }

  lemma OpIsKnown(s: State, i: nat)
    requires Safe(s) && i < |s.threads| && s.threads[i].Op?
    ensures Known(s.sh, s.threads[i]) && PcOk(s.threads[i])
  {
    var l := s.threads[i];
    assert ThreadOk(s.sh, s.h, i, l);
    ShutIsClosing(s);
    hide Inv, SleepersOk, CloseAttended, HoldOk, CloserOk, Slot, Want, Notified;
    if Past(s.sh, l.side, l.word.ticket) && l.pc.FutexWait? && s.sh.closing.closed {
      Visited(s, l.side, l.word.ticket);
    }
  }

  lemma ShutIsClosing(s: State)
    requires Safe(s)
    ensures Shut(s.sh, PushSide) || Shut(s.sh, PopSide) ==> s.sh.closing.Any()
  {
    hide TicketsOk, CountsOk, ThreadOk, SleepersOk, CloseAttended, BarriersOk, LogsOk, ItemsOk, NotesOk;
  }

  ghost predicate Progresses(s: State, s': State, i: nat)
    requires WellShaped(s.sh) && WellShaped(s'.sh) && i < |s.threads| == |s'.threads| && s.threads[i].Op?
  {
    var l' := s'.threads[i];
    s'.sh.closing == s.sh.closing && (l'.Idle? || (OnItsWay(s'.sh, l') && Left(s'.sh, l') < Left(s.sh, s.threads[i])))
  }

  lemma TransferProgress(s: State, i: nat)
    requires WellShaped(s.sh) && i < |s.threads| && OnItsWay(s.sh, s.threads[i]) && Known(s.sh, s.threads[i])
    requires s.threads[i].pc.TryCas? || s.threads[i].pc.Copy? || s.threads[i].pc.Exchange?
    ensures Progresses(s, OpNext(s, i, Go), i)
  {
    hide Slot, Want, AfterLoad;
  }

  lemma ChangeProgress(s: State, i: nat)
    requires WellShaped(s.sh) && i < |s.threads| && OnItsWay(s.sh, s.threads[i]) && Known(s.sh, s.threads[i])
    requires var pc := s.threads[i].pc; pc.CountCancel? || pc.SubTicket? || pc.OrWaiting? || pc.Wake?
    ensures Progresses(s, OpNext(s, i, Go), i)
  {
    hide Slot, Want, AfterLoad;
  }

  lemma OpProgress(s: State, i: nat)
    requires Safe(s) && i < |s.threads| && OnItsWay(s.sh, s.threads[i])
    ensures Progresses(s, Next(s, i, Go), i)
  {
    hide Safe, Known, Left, Slot, Want, AfterLoad, OpNext;
    SafeShape(s);
    OpIsKnown(s, i);
    var l := s.threads[i];
    if OnlyLoads(l.pc) {
      LoadProgress(s.sh, l);
      assert OpNext(s, i, Go) == Goto(s, i, AfterLoad(s.sh, l, Go)) by { LoadStep(s, i); }
    } else if l.pc.TryCas? || l.pc.Copy? || l.pc.Exchange? {
      TransferProgress(s, i);
    } else {
      ChangeProgress(s, i);
    }
  }

  lemma LoadStep(s: State, i: nat)
    requires WellShaped(s.sh) && i < |s.threads| && s.threads[i].Op? && OnlyLoads(s.threads[i].pc)
    ensures OpNext(s, i, Go) == Goto(s, i, AfterLoad(s.sh, s.threads[i], Go))
  {
    hide AfterLoad, Slot;
  }

  // ---- a close that needs nobody else ----

  /** Every lock ticket that was handed out and not given back has its thread. */
  ghost predicate LockAttended(s: State) {
    forall k: nat :: s.sh.lockCompleted <= k < s.sh.lockRequested ==> HasLockTicket(s, k)
  }

  ghost predicate HasLockTicket(s: State, k: nat) {
    && k in s.h.lockOwner && s.h.lockOwner[k] < |s.threads|
    && var l := s.threads[s.h.lockOwner[k]]; l.Close? && Locking(l) && l.lock == k
  }

  lemma LookKeepsLock(sh: Shared, l: Local)
    requires WellShaped(sh) && l.Close? && Locking(l)
    ensures var r := CloseAfterLoad(sh, l); r.Close? && Locking(r) && r.lock == l.lock
  {
    hide Slot;
  }

  lemma RangeKeepsLock(l: Local, second: bool, capacity: nat)
    requires l.Close?
    ensures EnterRange(l, second, capacity).lock == l.lock && AfterWake(l, capacity).lock == l.lock
  {
  }

  lemma OwnLockKept(s: State, i: nat, a: Action)
    requires WellShaped(s.sh) && i < |s.threads| && s.threads[i].Close? && Locking(s.threads[i]) && !s.threads[i].cpc.CUnlock?
    ensures var l := CloseNext(s, i, a).threads[i]; l.Close? && Locking(l) && l.lock == s.threads[i].lock
  {
    hide EnterRange, AfterWake, Slot, CloseAfterLoad;
    var l := s.threads[i];
    LookKeepsLock(s.sh, l);
    RangeKeepsLock(l, false, s.sh.capacity);
    RangeKeepsLock(l.(headEnd := l.head.ticket), false, s.sh.capacity);
    RangeKeepsLock(l.(headEnd := s.sh.head.ticket), false, s.sh.capacity);
  }

  /** A step leaves the other threads alone, except that it may wake them. */
  ghost predicate AtMostWoken(l: Local, l': Local) {
    l' == l || (l.Op? && l.pc.Asleep? && l' == l.(pc := LoadId))
  }

  lemma OthersOfOp(s: State, i: nat, a: Action, j: nat)
    requires WellShaped(s.sh) && i < |s.threads| && s.threads[i].Op? && j < |s.threads| && j != i
    ensures AtMostWoken(s.threads[j], OpNext(s, i, a).threads[j])
  {
    hide Slot, AfterLoad, Want;
  }

  lemma OthersOfClose(s: State, i: nat, a: Action, j: nat)
    requires WellShaped(s.sh) && i < |s.threads| && s.threads[i].Close? && j < |s.threads| && j != i
    ensures AtMostWoken(s.threads[j], CloseNext(s, i, a).threads[j])
  {
    hide EnterRange, AfterWake, Slot, CloseAfterLoad;
  }

  lemma Others(s: State, i: nat, a: Action, j: nat)
    requires WellShaped(s.sh) && i < |s.threads| && j < |s.threads| && j != i
    ensures AtMostWoken(s.threads[j], Next(s, i, a).threads[j])
  {
    hide OpNext, CloseNext;
    if s.threads[i].Op? { OthersOfOp(s, i, a, j); }
    if s.threads[i].Close? { OthersOfClose(s, i, a, j); }
  }

  ghost predicate SameLock(s: State, s': State) {
    && s'.sh.lockCompleted == s.sh.lockCompleted && s'.sh.lockRequested == s.sh.lockRequested
    && s'.h.lockOwner == s.h.lockOwner
  }

  lemma LockOfOp(s: State, i: nat, a: Action)
    requires WellShaped(s.sh) && i < |s.threads| && s.threads[i].Op?
    ensures SameLock(s, OpNext(s, i, a))
  {
    hide Slot, AfterLoad, Want;
  }

  lemma LockOfClose(s: State, i: nat, a: Action)
    requires WellShaped(s.sh) && i < |s.threads| && s.threads[i].Close?
    requires !s.threads[i].cpc.CUnlock? && !s.threads[i].cpc.CLockReq?
    ensures SameLock(s, CloseNext(s, i, a))
  {
    hide EnterRange, AfterWake, Slot, CloseAfterLoad;
  }

  /** How a step changes the lock. */
  lemma LockFields(s: State, i: nat, a: Action)
    requires WellShaped(s.sh) && i < |s.threads|
    ensures var s', l := Next(s, i, a), s.threads[i];
      if l.Close? && l.cpc.CLockReq? then
        && s'.sh.lockCompleted == s.sh.lockCompleted && s'.sh.lockRequested == s.sh.lockRequested + 1
        && s'.h.lockOwner == s.h.lockOwner[s.sh.lockRequested := i]
        && s'.threads[i] == l.(cpc := CLockWait, lock := s.sh.lockRequested)
      else if l.Close? && l.cpc.CUnlock? then
        && s'.sh.lockCompleted == s.sh.lockCompleted + 1 && s'.sh.lockRequested == s.sh.lockRequested
        && s'.h.lockOwner == s.h.lockOwner
      else SameLock(s, s')
  {
    var l := s.threads[i];
    if l.Op? { hide OpNext; LockOfOp(s, i, a); }
    if l.Close? && !l.cpc.CUnlock? && !l.cpc.CLockReq? { hide CloseNext; LockOfClose(s, i, a); }
  }

  lemma NextLockAttended(s: State, i: nat, a: Action)
    requires Safe(s) && LockAttended(s)
    ensures LockAttended(Next(s, i, a))
  {
    SafeShape(s);
    if i < |s.threads| {
      assert ThreadOk(s.sh, s.h, i, s.threads[i]);
      hide Safe, Next, StageOk, LocalsOk, WakeOk, OpOk;
      var s', l := Next(s, i, a), s.threads[i];
      LockFields(s, i, a);
      if l.Close? && Locking(l) && !l.cpc.CUnlock? {
        assert Next(s, i, a) == CloseNext(s, i, a) by { CloserMoves(s, i, a); }
        OwnLockKept(s, i, a);
      }
      forall k: nat | s'.sh.lockCompleted <= k < s'.sh.lockRequested ensures HasLockTicket(s', k) {
        if k < s.sh.lockRequested {
          assert HasLockTicket(s, k);
          var o := s.h.lockOwner[k];
          if o != i { Others(s, i, a, o); }
        }
      }
    }
  }

  lemma CloserMoves(s: State, i: nat, a: Action)
    requires WellShaped(s.sh) && i < |s.threads| && s.threads[i].Close?
    ensures Next(s, i, a) == CloseNext(s, i, a)
  {
    hide CloseNext;
  }

  /** The close finishes if it is left to run alone. */
  ghost predicate CloserReady(s: State, i: nat) {
    && i < |s.threads| && s.threads[i].Close?
    && var l := s.threads[i];
       || l.cpc.CIsClosed? || l.cpc.CRecheck? || l.cpc.CUnlock?
       || (l.cpc.CLockReq? && s.sh.lockRequested == s.sh.lockCompleted)
       || (l.cpc.CLockWait? && l.lock == s.sh.lockCompleted)
  }

  function ClosePlace(pc: ClosePc): nat {
    match pc
    case CLockReq => 5
    case CLockWait => 4
    case CRecheck => 3
    case CUnlock => 2
    case _ => 1
  }

  lemma CloserProgress(s: State, i: nat)
    requires WellShaped(s.sh) && s.sh.closing.closed && CloserReady(s, i)
    ensures var s' := Next(s, i, Go); var l' := s'.threads[i];
      && s'.sh.closing == s.sh.closing
      && (l'.Idle? || (CloserReady(s', i) && ClosePlace(l'.cpc) < ClosePlace(s.threads[i].cpc)))
  {
    hide EnterRange, AfterWake, Slot;
  }

  /** Once a close is complete no thread is at work on one. */
  lemma ClosersWait(s: State, i: nat)
    requires Safe(s) && s.sh.closing.closed && i < |s.threads| && s.threads[i].Close?
    ensures var l := s.threads[i];
      && (l.cpc.CIsClosed? || l.cpc.CLockReq? || l.cpc.CLockWait? || l.cpc.CRecheck? || l.cpc.CUnlock?)
      && LockOk(s.sh, s.h, i, l)
  {
    assert ThreadOk(s.sh, s.h, i, s.threads[i]);
    hide Inv, SleepersOk, CloseAttended, LocalsOk, WakeOk, OpOk;
  }

  /** While there is a closer, one of them is ready. */
  lemma SomeCloserReady(s: State, i: nat) returns (j: nat)
    requires Safe(s) && LockAttended(s) && s.sh.closing.closed && i < |s.threads| && s.threads[i].Close?
    ensures CloserReady(s, j)
  {
    hide Safe;
    ClosersWait(s, i);
    if s.sh.lockCompleted < s.sh.lockRequested {
      assert HasLockTicket(s, s.sh.lockCompleted);
      j := s.h.lockOwner[s.sh.lockCompleted];
      ClosersWait(s, j);
    } else {
      j := i;
      LockOrder(s);
    }
  }

  lemma LockOrder(s: State)
    requires Safe(s)
    ensures s.sh.lockCompleted <= s.sh.lockRequested
  {
    hide TicketsOk, CountsOk, ThreadOk, SleepersOk, CloseAttended, BarriersOk, LogsOk, ItemsOk, NotesOk;
  }

  // ---- somebody can always finish ----

  ghost predicate NoClosers(s: State) {
    forall j: nat :: j < |s.threads| ==> !s.threads[j].Close?
  }

  ghost predicate NoWakers(s: State) {
    forall j: nat :: j < |s.threads| ==> !(s.threads[j].Op? && s.threads[j].pc.Wake?)
  }

  lemma NobodyToWake(s: State, k: nat)
    requires WellShaped(s.sh) && NoClosers(s) && NoWakers(s)
    ensures !WakePending(s, k)
  {
    hide Slot;
  }

  /** An operation that a complete close turned away is not asleep for good. */
  lemma PastIsAwake(s: State, i: nat)
    requires Safe(s) && s.sh.closing.closed && i < |s.threads| && s.threads[i].Op? && NoClosers(s) && NoWakers(s)
    requires Past(s.sh, s.threads[i].side, s.threads[i].word.ticket)
    ensures !s.threads[i].pc.Asleep?
  {
    if s.threads[i].pc.Asleep? {
      hide Slot, Want, NoClosers, NoWakers;
      TurnedAwayIsWoken(s, i);
      NobodyToWake(s, Slot(s.sh.capacity, s.threads[i].word.ticket));
    }
  }

  /** An operation below its barrier: somebody at or before it is ready and awake. */
  lemma SomeoneReady(s: State, i: nat) returns (o: nat)
    requires Safe(s) && s.sh.closing.closed && i < |s.threads| && Holds(s.threads[i]) && NoClosers(s) && NoWakers(s)
    requires !Past(s.sh, s.threads[i].side, s.threads[i].word.ticket)
    ensures o < |s.threads| && OnItsWay(s.sh, s.threads[o])
  {
    var l := s.threads[i];
    var t := l.word.ticket;
    assert t < Limit(s.sh, l.side) && !IsDone(s.sh, l.side, t) by {
      assert ThreadOk(s.sh, s.h, i, l);
      hide SharedOk, TicketsOk, CountsOk, SleepersOk, CloseAttended, CarryOk, PastOk, OwnOk, Slot, Want;
    }
    ClosedIsShut(s);
    hide Safe, CanFinish, IsDone, Limit, Slot, Want, NoClosers, NoWakers;
    var d: Side, u: nat;
    if l.side.PushSide? { d, u := PushNotStranded(s, t); } else { d, u := PopNotStranded(s, t); }
    o := ReadyOwner(s, d, u);
  }

  lemma ReadyOwner(s: State, d: Side, u: nat) returns (o: nat)
    requires WellShaped(s.sh) && CanFinish(s, d, u) && NoClosers(s) && NoWakers(s)
    ensures o < |s.threads| && OnItsWay(s.sh, s.threads[o])
  {
    hide Slot, Want, NoClosers, NoWakers, Limit;
    o := Owner(s.h, d)[u];
    NobodyToWake(s, Slot(s.sh.capacity, u));
  }

  /** When nobody holds a ticket, a thread about to take one finishes alone. */
  lemma TakerFinishes(s: State, i: nat)
    requires Safe(s) && s.sh.closing.closed && i < |s.threads| && s.threads[i].Op? && s.threads[i].pc.Faa?
    requires forall j: nat :: j < |s.threads| ==> !Holds(s.threads[j])
    ensures var s' := Next(s, i, Go); s'.sh.closing == s.sh.closing && OnItsWay(s'.sh, s'.threads[i])
  {
    var l := s.threads[i];
    var t := Counter(s.sh, l.side).ticket;
    ClosedIsShut(s);
    OpIsKnown(s, i);
    if l.side.PopSide? && t < s.sh.headBarrier {
      assert IsDone(s.sh, PushSide, t) && !IsDone(s.sh, PopSide, t) by {
        hide SharedOk, CountsOk, ThreadOk, SleepersOk, CloseAttended, Slot, Want;
      }
      WantShape(s.sh.capacity);
    }
    hide Inv, SleepersOk, CloseAttended, Known, Slot, Want;
  }

  // ---- one thread after the other ----

  /** The reachable states with a complete close. */
  ghost predicate Closed(s: State) {
    Safe(s) && LockAttended(s) && s.sh.closing.closed
  }

  ghost function Busy(s: State): set<nat> {
    set i: nat | i < |s.threads| && !s.threads[i].Idle?
  }

  /** `more` only continues what was begun, from `s`, and leaves the channel in `s'`. */
  ghost predicate Continues(s: State, more: seq<(nat, Action)>, s': State) {
    && WellShaped(s.sh) && s' == Run(s, more) && (forall k :: 0 <= k < |more| ==> more[k].1.Go?)
    && Closed(s') && Busy(s') <= Busy(s)
    && Limit(s.sh, PushSide) <= Limit(s'.sh, PushSide) && Limit(s.sh, PopSide) <= Limit(s'.sh, PopSide)
  }

  /** A thread that gives a ticket back leaves the counter at or past the barrier. */
  lemma ReturnerIsPast(s: State, i: nat)
    requires Safe(s) && s.sh.closing.closed && i < |s.threads| && s.threads[i].Op? && s.threads[i].pc.SubTicket?
    ensures var d := s.threads[i].side; Shut(s.sh, d) && Barrier(s.sh, d) < Counter(s.sh, d).ticket
  {
    hide SharedOk, TicketsOk, SleepersOk, CloseAttended, HoldOk, OwnOk, CarryOk, Slot, Want;
    var l := s.threads[i];
    assert ThreadOk(s.sh, s.h, i, l);
    assert i in PastHolders(s, l.side);
  }

  /** Giving it back does not lower the limit. */
  lemma LimitOfOp(s: State, i: nat, d: Side)
    requires WellShaped(s.sh) && i < |s.threads| && s.threads[i].Op?
    requires var e := s.threads[i].side;
      s.threads[i].pc.SubTicket? ==> Shut(s.sh, e) && Barrier(s.sh, e) < Counter(s.sh, e).ticket
    ensures Limit(s.sh, d) <= Limit(OpNext(s, i, Go).sh, d)
  {
    hide Slot, Want, AfterLoad;
  }

  lemma LimitOfClose(s: State, i: nat, d: Side)
    requires Safe(s) && s.sh.closing.closed && i < |s.threads| && s.threads[i].Close?
    ensures WellShaped(s.sh) && Limit(CloseNext(s, i, Go).sh, d) == Limit(s.sh, d)
  {
    SafeShape(s);
    ClosersWait(s, i);
    hide Safe, EnterRange, AfterWake, Slot, CloseAfterLoad;
  }

  lemma LimitGrows(s: State, i: nat, d: Side)
    requires Safe(s) && s.sh.closing.closed && i < |s.threads|
    ensures WellShaped(s.sh) && Limit(s.sh, d) <= Limit(Next(s, i, Go).sh, d)
  {
    hide Safe, Limit, OpNext, CloseNext;
    SafeShape(s);
    if s.threads[i].Op? {
      if s.threads[i].pc.SubTicket? { ReturnerIsPast(s, i); }
      LimitOfOp(s, i, d);
    }
    if s.threads[i].Close? { LimitOfClose(s, i, d); }
  }

  lemma StepContinues(s: State, i: nat, s': State)
    requires Closed(s) && i < |s.threads| && WellShaped(s.sh) && s' == Next(s, i, Go) && s'.sh.closing == s.sh.closing
    ensures Continues(s, [(i, Go)], s')
  {
    hide Safe, LockAttended, Next;
    NextSafe(s, i, Go);
    NextLockAttended(s, i, Go);
    LimitGrows(s, i, PushSide);
    LimitGrows(s, i, PopSide);
    assert Run(s, [(i, Go)][..0]) == s;
    forall j | j in Busy(s') ensures j in Busy(s) {
      if j != i { Others(s, i, Go, j); } else if s.threads[i].Idle? { IdleStays(s, i); }
    }
  }

  lemma IdleStays(s: State, i: nat)
    requires WellShaped(s.sh) && i < |s.threads| && s.threads[i].Idle?
    ensures Next(s, i, Go).threads[i].Idle?
  {
  }

  lemma JoinContinues(s: State, a: seq<(nat, Action)>, m: State, b: seq<(nat, Action)>, e: State)
    requires Continues(s, a, m) && Continues(m, b, e)
    ensures Continues(s, a + b, e)
  {
    hide Run, Closed;
    RunAppend(s, a, b);
  }

  /** An operation that needs nobody else runs to its end. */
  lemma {:induction false} OpFinishes(s: State, i: nat) returns (more: seq<(nat, Action)>, e: State)
    requires Closed(s) && i < |s.threads| && WellShaped(s.sh) && OnItsWay(s.sh, s.threads[i])
    ensures Continues(s, more, e) && i !in Busy(e)
    decreases Left(s.sh, s.threads[i])
  {
    hide Safe, LockAttended, OnItsWay, Left, Continues, Next;
    WayIsOp(s.sh, s.threads[i]);
    var s' := Next(s, i, Go);
    OpProgress(s, i);
    StepContinues(s, i, s');
    if s'.threads[i].Idle? {
      more, e := [(i, Go)], s';
    } else {
      ContinuesClosed(s, [(i, Go)], s');
      more, e := OpFinishes(s', i);
      JoinContinues(s, [(i, Go)], s', more, e);
      more := [(i, Go)] + more;
    }
  }

  lemma WayIsOp(sh: Shared, l: Local)
    requires WellShaped(sh) && OnItsWay(sh, l)
    ensures l.Op?
  {
  }

  lemma ContinuesClosed(s: State, more: seq<(nat, Action)>, s': State)
    requires Continues(s, more, s')
    ensures Closed(s') && WellShaped(s.sh)
  {
  }

  lemma {:induction false} CloserFinishes(s: State, i: nat) returns (more: seq<(nat, Action)>, e: State)
    requires Closed(s) && WellShaped(s.sh) && CloserReady(s, i)
    ensures Continues(s, more, e) && i !in Busy(e)
    decreases ClosePlace(s.threads[i].cpc)
  {
    hide Safe, LockAttended, Continues, Next;
    var s' := Next(s, i, Go);
    CloserProgress(s, i);
    StepContinues(s, i, s');
    if s'.threads[i].Idle? {
      more, e := [(i, Go)], s';
    } else {
      ContinuesClosed(s, [(i, Go)], s');
      more, e := CloserFinishes(s', i);
      JoinContinues(s, [(i, Go)], s', more, e);
      more := [(i, Go)] + more;
    }
  }

  lemma TakerRuns(s: State, i: nat) returns (more: seq<(nat, Action)>, e: State)
    requires Closed(s) && WellShaped(s.sh) && i < |s.threads| && s.threads[i].Op? && s.threads[i].pc.Faa?
    requires forall j: nat :: j < |s.threads| ==> !Holds(s.threads[j])
    ensures Continues(s, more, e) && i !in Busy(e)
  {
    hide Safe, LockAttended, OnItsWay, Continues, Next, Holds;
    var s' := Next(s, i, Go);
    TakerFinishes(s, i);
    StepContinues(s, i, s');
    ContinuesClosed(s, [(i, Go)], s');
    more, e := OpFinishes(s', i);
    JoinContinues(s, [(i, Go)], s', more, e);
    more := [(i, Go)] + more;
  }

  /** A thread inside an operation that neither holds a ticket nor is on its way is about to take one. */
  lemma MustBeTaking(s: State, i: nat)
    requires Safe(s) && s.sh.closing.closed && i < |s.threads| && s.threads[i].Op? && !Holds(s.threads[i])
    requires WellShaped(s.sh) && !OnItsWay(s.sh, s.threads[i])
    ensures s.threads[i].pc.Faa?
  {
    hide Safe;
  }

  /** While somebody is busy, somebody can finish. */
  lemma OneFinishes(s: State) returns (i: nat, more: seq<(nat, Action)>, e: State)
    requires Closed(s) && WellShaped(s.sh) && Busy(s) != {}
    ensures i in Busy(s) && Continues(s, more, e) && i !in Busy(e)
  {
    hide Safe, LockAttended, OnItsWay, Continues, Holds, CloserReady;
    if c: nat :| c < |s.threads| && s.threads[c].Close? {
      i := SomeCloserReady(s, c);
      ReadyIsCloser(s, i);
      more, e := CloserFinishes(s, i);
    } else if w: nat :| w < |s.threads| && OnItsWay(s.sh, s.threads[w]) {
      i := w;
      WayIsOp(s.sh, s.threads[w]);
      more, e := OpFinishes(s, w);
    } else if h: nat :| h < |s.threads| && Holds(s.threads[h]) {
      SomebodyOnTheWay(s, h);
      assert false;
    } else {
      i :| i in Busy(s);
      MustBeTaking(s, i);
      more, e := TakerRuns(s, i);
    }
  }

  lemma ReadyIsCloser(s: State, i: nat)
    requires CloserReady(s, i)
    ensures i < |s.threads| && s.threads[i].Close?
  {
  }

  /** With no closer left, a held ticket means that some operation is on its way. */
  lemma SomebodyOnTheWay(s: State, h: nat)
    requires Safe(s) && s.sh.closing.closed && WellShaped(s.sh) && h < |s.threads| && Holds(s.threads[h]) && NoClosers(s)
    ensures exists w: nat :: w < |s.threads| && OnItsWay(s.sh, s.threads[w])
  {
    if w: nat :| w < |s.threads| && s.threads[w].Op? && s.threads[w].pc.Wake? {
      assert OnItsWay(s.sh, s.threads[w]);
    } else {
      hide Safe, Slot, Want, NoClosers;
      if Past(s.sh, s.threads[h].side, s.threads[h].word.ticket) {
        PastIsAwake(s, h);
        assert OnItsWay(s.sh, s.threads[h]);
      } else {
        var o := SomeoneReady(s, h);
      }
    }
  }

  lemma FewerBusy(s: State, e: State, i: nat)
    requires i in Busy(s) && i !in Busy(e) && Busy(e) <= Busy(s)
    ensures |Busy(e)| < |Busy(s)|
  {
    SubsetSize(Busy(e), Busy(s) - {i});
    SizeWithout(Busy(s), i);
  }

  lemma {:induction false} AllFinish(s: State) returns (more: seq<(nat, Action)>, e: State)
    requires Closed(s) && WellShaped(s.sh)
    ensures Continues(s, more, e) && Busy(e) == {}
    decreases |Busy(s)|
  {
    hide Closed, Busy, Run;
    if Busy(s) == {} {
      more, e := [], s;
      assert Run(s, []) == s by { RunNothing(s); }
    } else {
      var i, a, m := OneFinishes(s);
      FewerBusy(s, m, i);
      assert WellShaped(m.sh);
      more, e := AllFinish(m);
      JoinContinues(s, a, m, more, e);
      more := a + more;
    }
  }

  lemma RunNothing(s: State)
    requires WellShaped(s.sh)
    ensures Run(s, []) == s
  {
  }

  // ---- the theorem ----

  lemma {:induction false} RunLockAttended(s: State, schedule: seq<(nat, Action)>)
    requires Safe(s) && LockAttended(s)
    ensures LockAttended(Run(s, schedule))
    decreases |schedule|
  {
    hide Safe, LockAttended, Next;
    SafeShape(s);
    if schedule != [] {
      var before, last := schedule[..|schedule| - 1], schedule[|schedule| - 1];
      RunLockAttended(s, before);
      RunSafe(s, before);
      NextLockAttended(Run(s, before), last.0, last.1);
    }
  }

  /** From every state of every run in which a close is complete, the threads can finish what they are doing: some
      continuation, without a new operation and without a spurious wake-up, leaves every thread idle, every ticket below
      a barrier done, and the counters at their barriers. */
  lemma ClosedDrains(items: seq<Item>, n: nat, schedule: seq<(nat, Action)>) returns (more: seq<(nat, Action)>)
    requires |items| > 0 && Run(Init(items, n), schedule).sh.closing.closed
    ensures forall k :: 0 <= k < |more| ==> more[k].1.Go?
    ensures var s, e := Run(Init(items, n), schedule), Run(Init(items, n), schedule + more);
      && (forall i :: 0 <= i < |e.threads| ==> e.threads[i].Idle?)
      && (forall d, t: nat :: t < Limit(s.sh, d) ==> IsDone(e.sh, d, t))
      && e.sh.tail.ticket == e.sh.tailBarrier == s.sh.tailBarrier && e.sh.head.ticket <= e.sh.headBarrier == s.sh.headBarrier
  {
    hide Safe, Run, LockAttended, Init;
    var s := Run(Init(items, n), schedule);
    EveryRunSafe(items, n, schedule);
    InitSafe(items, n);
    InitLock(items, n);
    RunLockAttended(Init(items, n), schedule);
    var e;
    more, e := AllFinish(s);
    RunAppend(Init(items, n), schedule, more);
    AllIdle(e);
    QuiescentConverged(items, n, schedule + more);
    BarriersAreFinal(items, n, schedule, more);
    ClosedIsShut(s);
    EveryRunSafe(items, n, schedule + more);
    DrainedTickets(s, e);
  }

  lemma InitLock(items: seq<Item>, n: nat)
    requires |items| > 0
    ensures LockAttended(Init(items, n))
  {
  }

  lemma AllIdle(e: State)
    requires Busy(e) == {}
    ensures forall i :: 0 <= i < |e.threads| ==> e.threads[i].Idle?
  {
    forall i | 0 <= i < |e.threads| ensures e.threads[i].Idle? {
      assert i !in Busy(e);
    }
  }

  lemma DrainedTickets(s: State, e: State)
    requires Limit(s.sh, PushSide) <= Limit(e.sh, PushSide) && Limit(s.sh, PopSide) <= Limit(e.sh, PopSide)
    requires Safe(e) && forall i :: 0 <= i < |e.threads| ==> e.threads[i].Idle?
    ensures WellShaped(e.sh) && forall d, t: nat :: t < Limit(s.sh, d) ==> IsDone(e.sh, d, t)
  {
    QuietTickets(e);
    hide Inv, SleepersOk, CloseAttended, Limit, IsDone;
    forall d, t: nat | t < Limit(s.sh, d) ensures IsDone(e.sh, d, t) {
      assert d == PushSide || d == PopSide;
    }
  }
}
