/**
 The inductive invariant of the channel step machine.

 A ticket is *done* on a side when its slot's phase has moved past the phase the
 operation waits for; the phases alone therefore say which operations completed.
 Every ticket below a side's limit is either done or held by the thread recorded as
 its owner, and a ticket at or past a published barrier is never done.
 */
module ChannelInvariant {
  import opened ChannelModel

  // ---- tickets ----

  ghost predicate Shut(sh: Shared, d: Side) {
    if d.PushSide? then sh.head.pushClosed || sh.tail.pushClosed else sh.head.popClosed
  }

  ghost predicate Past(sh: Shared, d: Side, t: nat) {
    Shut(sh, d) && Barrier(sh, d) <= t
  }

  /** Tickets below the limit were handed out and are allowed to complete. */
  ghost function Limit(sh: Shared, d: Side): nat {
    if Shut(sh, d) && Barrier(sh, d) < Counter(sh, d).ticket then Barrier(sh, d) else Counter(sh, d).ticket
  }

  ghost predicate IsDone(sh: Shared, d: Side, t: nat)
    requires WellShaped(sh)
  {
    sh.ids[Slot(sh.capacity, t)].phase > Want(sh.capacity, d, t)
  }

  /** The slot has been ready for ticket `t`, whether or not the operation is done. */
  ghost predicate Reached(sh: Shared, d: Side, t: nat)
    requires WellShaped(sh)
  {
    sh.ids[Slot(sh.capacity, t)].phase >= Want(sh.capacity, d, t)
  }

  ghost predicate Holds(l: Local) {
    && l.Op?
    && (|| l.pc.Copy? || l.pc.Exchange?
        || (!l.try && (|| l.pc.LoadId? || l.pc.LoadClosing? || l.pc.LoadTail? || l.pc.LoadHead? || l.pc.LoadBarrier?
                       || l.pc.CountCancel? || l.pc.SubTicket? || l.pc.OrWaiting? || l.pc.FutexWait? || l.pc.Asleep?)))
  }

  ghost predicate HoldsTicket(l: Local, d: Side, t: nat) {
    Holds(l) && l.side == d && l.word.ticket == t
  }

  ghost predicate HeldByOwner(s: State, d: Side, t: nat) {
    t in Owner(s.h, d) && Owner(s.h, d)[t] < |s.threads| && HoldsTicket(s.threads[Owner(s.h, d)[t]], d, t)
  }

  // ---- threads inside a push or pop ----

  ghost predicate CarriesId(l: Local)
    requires l.Op?
  {
    || l.pc.LoadClosing? || l.pc.LoadTail? || l.pc.LoadHead? || l.pc.LoadBarrier?
    || l.pc.OrWaiting? || l.pc.FutexWait? || l.pc.Asleep? || l.pc.TryCas?
  }

  ghost predicate IsWaiting(l: Local)
    requires l.Op?
  {
    l.pc.OrWaiting? || l.pc.FutexWait? || l.pc.Asleep?
  }

  ghost predicate Started(l: Local)
    requires l.Op?
  {
    !l.pc.Faa? && !l.pc.LoadWord?
  }

  ghost function Notified(h: History, d: Side): set<nat> {
    if d.PushSide? then h.notifiedTail else h.notifiedHead
  }

  ghost function ShutAt(h: History, d: Side): nat {
    if d.PushSide? then h.shutTail else h.shutHead
  }

  ghost predicate PcOk(l: Local)
    requires l.Op?
  {
    && (l.pc.CountCancel? || l.pc.SubTicket? || IsWaiting(l) || l.pc.Faa? ==> !l.try)
    && (l.pc.TryCas? || l.pc.LoadWord? ==> l.try)
    && (l.pc.LoadTail? ==> l.side.PushSide?)
  }

  ghost predicate HoldOk(sh: Shared, h: History, i: nat, l: Local)
    requires WellShaped(sh) && l.Op?
  {
    var t := l.word.ticket;
    Holds(l) ==>
      || Past(sh, l.side, t)
      || (&& t < Limit(sh, l.side) && t in Owner(h, l.side) && Owner(h, l.side)[t] == i
          && !IsDone(sh, l.side, t)
          && (!l.pc.Exchange? ==> t !in Log(h, l.side)))
  }

  /** A thread past its id check owns the slot. */
  ghost predicate OwnOk(sh: Shared, h: History, l: Local)
    requires WellShaped(sh) && l.Op?
  {
    var t := l.word.ticket;
    && (l.pc.Copy? || l.pc.Exchange? ==>
          !Past(sh, l.side, t) && sh.ids[Slot(sh.capacity, t)].phase == Want(sh.capacity, l.side, t))
    && (l.pc.Exchange? && l.side.PushSide? ==> sh.items[Slot(sh.capacity, t)] == l.item)
    && (l.pc.Exchange? || l.pc.Wake? || (l.pc.Done? && l.res.Ok?) ==>
          t in Log(h, l.side) && Log(h, l.side)[t] == l.item)
  }

  ghost predicate CarryOk(sh: Shared, l: Local)
    requires WellShaped(sh) && l.Op?
  {
    var t := l.word.ticket;
    && (Started(l) && (if l.side.PushSide? then l.word.pushClosed else l.word.popClosed) ==> Shut(sh, l.side))
    && (CarriesId(l) ==> l.curr.phase <= sh.ids[Slot(sh.capacity, t)].phase)
    && (CarriesId(l) && l.curr.notify ==> Shut(sh, PopSide))
    && (IsWaiting(l) ==> l.curr.phase != Want(sh.capacity, l.side, t))
    && (l.pc.TryCas? ==> l.curr.phase == Want(sh.capacity, l.side, t))
    && ((l.pc.LoadHead? || l.pc.LoadBarrier?) && l.saw ==> Shut(sh, l.side))
  }

  /** The id was loaded before the barrier was published, did not match, and can no longer be slept on
      once the close has visited the slot. */
  ghost predicate Stale(sh: Shared, h: History, l: Local)
    requires WellShaped(sh) && l.Op?
  {
    var t := l.word.ticket;
    var k := Slot(sh.capacity, t);
    && l.curr.phase != Want(sh.capacity, l.side, t) && !l.curr.notify && t < ShutAt(h, l.side)
    && (k in Notified(h, l.side) ==> sh.ids[k].phase > l.curr.phase || sh.ids[k].notify)
  }

  /** The compare-exchange of a `try` operation is bound to fail. */
  ghost predicate Doomed(sh: Shared, l: Local)
    requires l.Op?
  {
    if l.side.PushSide? then sh.tail.pushClosed && !l.word.pushClosed
    else sh.head.popClosed && !l.word.popClosed
  }

  ghost predicate Harmless(sh: Shared, h: History, l: Local)
    requires WellShaped(sh) && l.Op?
  {
    if l.try then l.curr.phase != Want(sh.capacity, l.side, l.word.ticket) || Doomed(sh, l)
    else Stale(sh, h, l)
  }

  /** Past a published barrier an operation either is bound to notice it or cannot proceed. */
  ghost predicate PastOk(sh: Shared, h: History, l: Local)
    requires WellShaped(sh) && l.Op?
  {
    && (Past(sh, l.side, l.word.ticket) ==>
          && (l.pc.LoadHead? && l.side.PushSide? ==> l.saw || sh.head.pushClosed || Harmless(sh, h, l))
          && (l.pc.LoadBarrier? ==> l.saw || Harmless(sh, h, l))
          && (IsWaiting(l) || l.pc.TryCas? ==> Harmless(sh, h, l)))
    && (l.pc.CountCancel? || l.pc.SubTicket? || (l.pc.Done? && l.res.Closed?) ==> Past(sh, l.side, l.word.ticket))
  }

  ghost predicate OpOk(sh: Shared, h: History, i: nat, l: Local)
    requires WellShaped(sh) && l.Op?
  {
    PcOk(l) && HoldOk(sh, h, i, l) && OwnOk(sh, h, l) && CarryOk(sh, l) && PastOk(sh, h, l)
  }

  // ---- threads inside a close ----

  ghost predicate Covered(capacity: nat, from: nat, end: nat, slots: set<nat>)
    requires capacity > 0
  {
    forall t: nat :: from <= t < end ==> Slot(capacity, t) in slots
  }

  ghost predicate Locking(l: Local)
    requires l.Close?
  {
    !l.cpc.CIsClosed? && !l.cpc.CLockReq?
  }

  ghost predicate HasLock(l: Local)
    requires l.Close?
  {
    Locking(l) && !l.cpc.CLockWait?
  }

  ghost predicate LockOk(sh: Shared, h: History, i: nat, l: Local)
    requires l.Close?
  {
    && (Locking(l) ==> sh.lockCompleted <= l.lock < sh.lockRequested && l.lock in h.lockOwner && h.lockOwner[l.lock] == i)
    && (HasLock(l) ==> l.lock == sh.lockCompleted)
  }

  ghost predicate PlacingTailBarrier(pc: ClosePc) { pc.CLoadTail? || pc.CLoadHead? || pc.CStoreBarrier? || pc.CCasBarrier? }
  ghost predicate TailBarrierPlaced(pc: ClosePc) { pc.CReloadTail? || pc.CLoadCancels? || pc.COrPop? }
  ghost predicate PlacingHeadBarrier(pc: ClosePc) { pc.CLoadHead2? || pc.CStoreHead? || pc.CCasHead? || pc.COrHead? }
  ghost predicate Waking(pc: ClosePc) { pc.CWakeOr? || pc.CWakeLoad? || pc.CWakeAnd? || pc.CWakeCall? }

  ghost predicate StageOk(sh: Shared, l: Local)
    requires l.Close?
  {
    && (l.cpc.COrPush? ==> !sh.closing.Any())
    && (PlacingTailBarrier(l.cpc) ==> sh.closing == Closing(true, false, false) && !Shut(sh, PushSide))
    && (TailBarrierPlaced(l.cpc) ==> sh.closing == Closing(true, false, false) && Shut(sh, PushSide))
    && (PlacingHeadBarrier(l.cpc) ==> sh.closing == Closing(true, true, false) && !Shut(sh, PopSide))
    && (Waking(l.cpc) || l.cpc.COrClosed? ==>
          sh.closing == Closing(true, true, false) && Shut(sh, PopSide) && sh.headBarrier == l.hb)
    && (TailBarrierPlaced(l.cpc) || PlacingHeadBarrier(l.cpc) || Waking(l.cpc) || l.cpc.COrClosed? ==>
          sh.tailBarrier == l.tb)
  }

  ghost predicate LocalsOk(sh: Shared, h: History, l: Local)
    requires l.Close?
  {
    && (l.cpc.CLoadHead? || l.cpc.CStoreBarrier? || l.cpc.CCasBarrier? ==> l.tail.ticket <= sh.tail.ticket)
    && (l.cpc.CStoreBarrier? || l.cpc.CCasBarrier? ==> l.head.ticket <= sh.head.ticket)
    && (l.cpc.CCasBarrier? ==>
          && sh.tailBarrier == l.tb
          && l.tb == if l.head.ticket + sh.capacity < l.tail.ticket then l.head.ticket + sh.capacity else l.tail.ticket)
    && (l.cpc.CLoadCancels? ==> h.shutTail <= l.tail.ticket + sh.tailCancels)
    && (l.cpc.COrPop? || PlacingHeadBarrier(l.cpc) || Waking(l.cpc) || l.cpc.COrClosed? ==> h.shutTail <= l.tailEnd)
    && (l.cpc.CStoreHead? && !l.pushClose ==> l.head.ticket <= sh.head.ticket)
    && (l.cpc.CLoadHead2? ==> !l.pushClose)
    && (l.cpc.CCasHead? ==>
          !l.pushClose && sh.headBarrier == l.hb && l.hb == if l.tb <= l.head.ticket then l.tb else l.head.ticket)
    && (l.cpc.COrHead? ==> l.pushClose && sh.headBarrier == l.hb == l.tb)
  }

  ghost predicate WakeOk(sh: Shared, h: History, l: Local)
    requires sh.capacity > 0 && l.Close?
  {
    var C := sh.capacity;
    var from := if l.second then l.tb else l.hb;
    var end := if l.second then l.tailEnd else l.headEnd;
    && (Waking(l.cpc) || l.cpc.COrClosed? ==> l.headEnd == h.shutHead)
    && (Waking(l.cpc) ==>
          && from <= l.cursor < l.to && l.to == (if from + C < end then from + C else end)
          && Covered(C, from, l.cursor, Notified(h, if l.second then PushSide else PopSide))
          && (!l.cpc.CWakeOr? ==> Slot(C, l.cursor) in Notified(h, if l.second then PushSide else PopSide))
          && (l.second ==> Covered(C, l.hb, h.shutHead, h.notifiedHead)))
    && (l.cpc.COrClosed? ==>
          Covered(C, l.hb, h.shutHead, h.notifiedHead) && Covered(C, l.tb, h.shutTail, h.notifiedTail))
  }

  ghost predicate CloserOk(sh: Shared, h: History, i: nat, l: Local)
    requires sh.capacity > 0 && l.Close?
  {
    LockOk(sh, h, i, l) && StageOk(sh, l) && LocalsOk(sh, h, l) && WakeOk(sh, h, l)
  }

  // ---- the whole state ----

  ghost predicate FlagsOk(sh: Shared) {
    && (Shut(sh, PopSide) ==> Shut(sh, PushSide) && sh.closing.pop)
    && (Shut(sh, PushSide) ==> sh.closing.push)
    && (sh.closing.pop ==> Shut(sh, PushSide))
    && (sh.closing.closed ==> Shut(sh, PopSide))
    && sh.lockCompleted <= sh.lockRequested
  }

  ghost predicate BarriersOk(sh: Shared, h: History) {
    && (Shut(sh, PushSide) ==> sh.tailBarrier <= sh.tail.ticket && sh.tailBarrier <= h.shutTail)
    && (Shut(sh, PushSide) ==> sh.tailBarrier <= Limit(sh, PopSide) + sh.capacity)
    && (Shut(sh, PopSide) ==> sh.headBarrier <= sh.tailBarrier)
  }

  ghost predicate TicketsOk(s: State)
    requires WellShaped(s.sh)
  {
    && (forall d, t: nat :: IsDone(s.sh, d, t) ==> t < Limit(s.sh, d))
    && (forall d, t: nat :: t < Limit(s.sh, d) ==> IsDone(s.sh, d, t) || HeldByOwner(s, d, t))
  }

  ghost predicate LogsOk(sh: Shared, h: History)
    requires WellShaped(sh)
  {
    && (forall d, t: nat :: t in Log(h, d) ==> t < Limit(sh, d) && Reached(sh, d, t))
    && (forall d, t: nat :: IsDone(sh, d, t) ==> t in Log(h, d))
    && (forall t: nat :: t in h.taken ==> t in h.stored && h.taken[t] == h.stored[t])
  }

  /** A filled slot holds the item stored under its ticket. */
  ghost predicate ItemsOk(sh: Shared, h: History)
    requires WellShaped(sh)
  {
    forall t: nat :: IsDone(sh, PushSide, t) && !IsDone(sh, PopSide, t) ==>
      t in h.stored && sh.items[Slot(sh.capacity, t)] == h.stored[t]
  }

  ghost predicate NotesOk(sh: Shared, h: History)
    requires WellShaped(sh)
  {
    && (forall k :: 0 <= k < sh.capacity && sh.ids[k].notify ==> Shut(sh, PopSide))
    && (forall d, k :: k in Notified(h, d) ==> Shut(sh, PopSide))
    && (sh.closing.closed ==>
          && Covered(sh.capacity, sh.headBarrier, h.shutHead, h.notifiedHead)
          && Covered(sh.capacity, sh.tailBarrier, h.shutTail, h.notifiedTail))
  }

  ghost predicate HoldsPast(sh: Shared, d: Side, l: Local) {
    Holds(l) && l.side == d && Past(sh, d, l.word.ticket)
  }

  /** Threads holding a ticket at or past their side's barrier. */
  ghost function PastHolders(s: State, d: Side): set<nat> {
    set i: nat | i < |s.threads| && HoldsPast(s.sh, d, s.threads[i])
  }

  /** How far a counter is past its barrier. */
  ghost function Excess(sh: Shared, d: Side): nat {
    if Barrier(sh, d) < Counter(sh, d).ticket then Counter(sh, d).ticket - Barrier(sh, d) else 0
  }

  ghost predicate BacksOff(l: Local) {
    l.Op? && l.side.PushSide? && l.pc.SubTicket?
  }

  /** Pushes that counted their cancellation but did not give the ticket back yet. */
  ghost function BackingOff(s: State): set<nat> {
    set i: nat | i < |s.threads| && BacksOff(s.threads[i])
  }

  ghost predicate CountsOk(s: State) {
    && (forall d :: Shut(s.sh, d) ==> |PastHolders(s, d)| == Excess(s.sh, d))
    && (Shut(s.sh, PushSide) ==> s.h.shutTail + |BackingOff(s)| <= s.sh.tail.ticket + s.sh.tailCancels)
  }

  ghost predicate ThreadOk(sh: Shared, h: History, i: nat, l: Local)
    requires WellShaped(sh)
  {
    && (l.Op? ==> OpOk(sh, h, i, l))
    && (l.Close? ==> CloserOk(sh, h, i, l))
  }

  ghost predicate SharedOk(sh: Shared, h: History)
    requires WellShaped(sh)
  {
    FlagsOk(sh) && BarriersOk(sh, h) && LogsOk(sh, h) && ItemsOk(sh, h) && NotesOk(sh, h)
  }

  ghost predicate Inv(s: State) {
    && WellShaped(s.sh)
    && SharedOk(s.sh, s.h)
    && TicketsOk(s)
    && CountsOk(s)
    && forall i :: 0 <= i < |s.threads| ==> ThreadOk(s.sh, s.h, i, s.threads[i])
  }
}
