/** What every run of the channel guarantees. */
module ChannelTheorems {
  import opened Arith
  import opened ChannelModel
  import opened ChannelInvariant
  import opened ChannelSteps
  import opened ChannelCloseSteps
  import opened ChannelSleep

  // ---- every reachable state is safe ----

  predicate ActiveCloser(l: Local) {
    l.Close? && !l.cpc.CIsClosed? && !l.cpc.CLockReq? && !l.cpc.CLockWait? && !l.cpc.CRecheck? && !l.cpc.COrPush? && !l.cpc.CUnlock?
  }

  /** A close that began is finished or still being worked on, and barriers are zero before it. */
  ghost predicate CloseAttended(s: State) {
    && (s.sh.closing.Any() && !s.sh.closing.closed ==> exists i: nat :: i < |s.threads| && ActiveCloser(s.threads[i]))
    && (!s.sh.closing.push ==> s.sh.tailBarrier == 0)
    && (!s.sh.closing.pop ==> s.sh.headBarrier == 0)
  }

  ghost predicate Safe(s: State) {
    Inv(s) && SleepersOk(s) && CloseAttended(s)
  }

  lemma AttendedOp(s: State, i: nat, a: Action)
    requires WellShaped(s.sh) && CloseAttended(s) && i < |s.threads| && s.threads[i].Op?
    ensures CloseAttended(OpNext(s, i, a))
  {
    var s' := OpNext(s, i, a);
    assert s'.sh.closing == s.sh.closing && s'.sh.tailBarrier == s.sh.tailBarrier && s'.sh.headBarrier == s.sh.headBarrier;
    forall j: nat | j < |s.threads| && ActiveCloser(s.threads[j]) ensures ActiveCloser(s'.threads[j]) { }
  }

  lemma OthersStayActive(s: State, i: nat, a: Action, j: nat)
    requires WellShaped(s.sh) && i < |s.threads| && s.threads[i].Close? && j < |s.threads| && j != i && ActiveCloser(s.threads[j])
    ensures ActiveCloser(CloseNext(s, i, a).threads[j])
  {
    hide EnterRange, AfterWake, Slot, CloseAfterLoad;
  }

  lemma CloserStaysActive(s: State, i: nat, a: Action)
    requires WellShaped(s.sh) && i < |s.threads| && s.threads[i].Close?
    requires (ActiveCloser(s.threads[i]) && !s.threads[i].cpc.COrClosed?) || s.threads[i].cpc.COrPush?
    ensures ActiveCloser(CloseNext(s, i, a).threads[i])
  {
    hide EnterRange, AfterWake, Slot, CloseAfterLoad;
    LoaderStaysActive(s.sh, s.threads[i]);
  }

  lemma LoaderStaysActive(sh: Shared, l: Local)
    requires WellShaped(sh) && l.Close?
    ensures ActiveCloser(l) ==> ActiveCloser(CloseAfterLoad(sh, l))
  {
    hide Slot;
  }

  /** Flags are only set by closers that stay active, and barriers only behind their flags. */
  lemma CloseFlags(s: State, i: nat, a: Action)
    requires Inv(s) && CloseAttended(s) && i < |s.threads| && s.threads[i].Close?
    ensures var s' := CloseNext(s, i, a); var l := s.threads[i];
      && (!s'.sh.closing.push ==> s'.sh.tailBarrier == 0) && (!s'.sh.closing.pop ==> s'.sh.headBarrier == 0)
      && (s'.sh.closing.Any() && !s.sh.closing.Any() ==> s'.sh.closing.closed || (ActiveCloser(l) && !l.cpc.COrClosed?) || l.cpc.COrPush?)
      && (s.sh.closing.closed ==> s'.sh.closing.closed)
      && (l.cpc.COrClosed? ==> s'.sh.closing.closed)
  {
    hide SharedOk, TicketsOk, CountsOk, OpOk, LocalsOk, WakeOk, EnterRange, AfterWake, Slot, CloseAfterLoad;
    assert ThreadOk(s.sh, s.h, i, s.threads[i]);
  }

  lemma AttendedClose(s: State, i: nat, a: Action)
    requires Inv(s) && CloseAttended(s) && i < |s.threads| && s.threads[i].Close?
    ensures CloseAttended(CloseNext(s, i, a))
  {
    InvShape(s);
    hide CloseNext, Inv;
    var s' := CloseNext(s, i, a);
    CloseFlags(s, i, a);
    if (ActiveCloser(s.threads[i]) && !s.threads[i].cpc.COrClosed?) || s.threads[i].cpc.COrPush? {
      CloserStaysActive(s, i, a);
    }
    if j: nat :| j < |s.threads| && ActiveCloser(s.threads[j]) && j != i { OthersStayActive(s, i, a, j); }
  }

  lemma NextSafe(s: State, i: nat, a: Action)
    requires Safe(s)
    ensures Safe(Next(s, i, a))
  {
    hide OpNext, CloseNext, Inv, SleepersOk, CloseAttended;
    assert WellShaped(s.sh) by { InvShape(s); }
    if i < |s.threads| {
      match s.threads[i]
      case Idle =>
        StartStep(s, i, a);
        StartSafe(s, i, a);
      case Op(_, _, _, _, _, _, _, _) =>
        OpStep(s, i, a);
        OpSleepers(s, i, a);
        AttendedOp(s, i, a);
      case Close(_, _, _, _, _, _, _, _, _, _, _, _) =>
        CloseStep(s, i, a);
        CloseSleepers(s, i, a);
        AttendedClose(s, i, a);
    }
  }

  lemma InvShape(s: State)
    requires Inv(s)
    ensures WellShaped(s.sh)
  {
  }

  lemma StartSafe(s: State, i: nat, a: Action)
    requires WellShaped(s.sh) && SleepersOk(s) && CloseAttended(s) && i < |s.threads| && s.threads[i].Idle?
    ensures SleepersOk(Goto(s, i, Start(a))) && CloseAttended(Goto(s, i, Start(a)))
  {
    var s' := Goto(s, i, Start(a));
    QuietSleepers(s, s', i);
    forall j: nat | j < |s.threads| && ActiveCloser(s.threads[j]) ensures ActiveCloser(s'.threads[j]) { }
  }

  lemma InitSafe(items: seq<Item>, n: nat)
    requires |items| > 0
    ensures Safe(Init(items, n))
  {
    var s := Init(items, n);
    assert forall d :: PastHolders(s, d) == {};
    assert forall d, t: nat :: !IsDone(s.sh, d, t);
  }

  lemma {:induction false} RunSafe(s: State, schedule: seq<(nat, Action)>)
    requires Safe(s)
    ensures Safe(Run(s, schedule))
    decreases |schedule|
  {
    hide Safe, Next;
    assert WellShaped(s.sh) by { SafeShape(s); }
    if schedule != [] {
      RunSafe(s, schedule[..|schedule| - 1]);
      var last := schedule[|schedule| - 1];
      NextSafe(Run(s, schedule[..|schedule| - 1]), last.0, last.1);
    }
  }

  lemma SafeShape(s: State)
    requires Safe(s)
    ensures WellShaped(s.sh)
  {
  }

  /** Every state of every run satisfies the invariant. */
  lemma EveryRunSafe(items: seq<Item>, n: nat, schedule: seq<(nat, Action)>)
    requires |items| > 0
    ensures Safe(Run(Init(items, n), schedule))
  {
    hide Safe;
    InitSafe(items, n);
    RunSafe(Init(items, n), schedule);
  }

  // ---- closing barriers ----

  /** No item is stored at or past the tail barrier or taken at or past the head barrier, and
      exactly operations at or past their barrier are turned away. */
  lemma BarrierSafety(items: seq<Item>, n: nat, schedule: seq<(nat, Action)>)
    requires |items| > 0
    ensures var s := Run(Init(items, n), schedule);
      && (forall t: nat :: t in s.h.stored && Shut(s.sh, PushSide) ==> t < s.sh.tailBarrier)
      && (forall t: nat :: t in s.h.taken && Shut(s.sh, PopSide) ==> t < s.sh.headBarrier)
      && (forall i: nat :: i < |s.threads| && s.threads[i].Op? ==>
            var l := s.threads[i];
            && (l.pc.Copy? || l.pc.Exchange? || l.pc.Wake? || (l.pc.Done? && l.res.Ok?) ==>
                  !Past(s.sh, l.side, l.word.ticket))
            && (l.pc.CountCancel? || l.pc.SubTicket? || (l.pc.Done? && l.res.Closed?) ==>
                  Past(s.sh, l.side, l.word.ticket)))
  {
    EveryRunSafe(items, n, schedule);
    var s := Run(Init(items, n), schedule);
    hide Run, TicketsOk, CountsOk, CloserOk, ItemsOk, NotesOk, SleepersOk, CloseAttended, Slot, Want;
    assert s.h.stored == Log(s.h, PushSide) && s.h.taken == Log(s.h, PopSide);
    forall i: nat | i < |s.threads| && s.threads[i].Op?
      ensures var l := s.threads[i];
        && (l.pc.Copy? || l.pc.Exchange? || l.pc.Wake? || (l.pc.Done? && l.res.Ok?) ==> !Past(s.sh, l.side, l.word.ticket))
        && (l.pc.CountCancel? || l.pc.SubTicket? || (l.pc.Done? && l.res.Closed?) ==> Past(s.sh, l.side, l.word.ticket))
    {
      assert ThreadOk(s.sh, s.h, i, s.threads[i]);
    }
  }

  /** Barriers, once published, are final, and a ticket's item is recorded once and never changes. */
  ghost predicate Extends(s: State, s': State) {
    && (forall d :: Shut(s.sh, d) ==> Shut(s'.sh, d) && Barrier(s'.sh, d) == Barrier(s.sh, d))
    && (forall d, t: nat :: t in Log(s.h, d) ==> t in Log(s'.h, d) && Log(s'.h, d)[t] == Log(s.h, d)[t])
  }

  lemma OpExtends(s: State, i: nat, a: Action)
    requires Inv(s) && i < |s.threads| && s.threads[i].Op?
    ensures Extends(s, OpNext(s, i, a))
  {
    hide SharedOk, TicketsOk, CountsOk, CarryOk, PastOk, CloserOk, Slot, Want;
    assert ThreadOk(s.sh, s.h, i, s.threads[i]);
    var s' := OpNext(s, i, a);
    assert forall d :: Shut(s'.sh, d) == Shut(s.sh, d) && Barrier(s'.sh, d) == Barrier(s.sh, d);
  }

  lemma CloseExtends(s: State, i: nat, a: Action)
    requires Inv(s) && i < |s.threads| && s.threads[i].Close?
    ensures Extends(s, CloseNext(s, i, a))
  {
    hide LogsOk, ItemsOk, NotesOk, BarriersOk, TicketsOk, CountsOk, OpOk, WakeOk, LocalsOk, EnterRange, AfterWake, Slot;
    assert ThreadOk(s.sh, s.h, i, s.threads[i]);
    var s' := CloseNext(s, i, a);
    assert s'.h.stored == s.h.stored && s'.h.taken == s.h.taken;
  }

  lemma {:induction false} RunExtends(s: State, schedule: seq<(nat, Action)>)
    requires Safe(s)
    ensures Extends(s, Run(s, schedule))
    decreases |schedule|
  {
    if schedule != [] {
      var before := schedule[..|schedule| - 1];
      var last := schedule[|schedule| - 1];
      RunExtends(s, before);
      RunSafe(s, before);
      var m := Run(s, before);
      hide SleepersOk, CloseAttended, OpNext, CloseNext;
      if last.0 < |m.threads| {
        if m.threads[last.0].Op? { OpExtends(m, last.0, last.1); }
        if m.threads[last.0].Close? { CloseExtends(m, last.0, last.1); }
      }
      hide Inv;
    }
  }

  lemma {:induction false} RunAppend(s: State, a: seq<(nat, Action)>, b: seq<(nat, Action)>)
    requires WellShaped(s.sh)
    ensures Run(s, a + b) == Run(Run(s, a), b)
    decreases |b|
  {
    hide Next;
    if b == [] {
      assert a + b == a;
    } else {
      assert (a + b)[..|a + b| - 1] == a + b[..|b| - 1];
      RunAppend(s, a, b[..|b| - 1]);
    }
  }

  /** Whatever happens later, a published barrier and the recorded items stay as they are. */
  lemma BarriersAreFinal(items: seq<Item>, n: nat, schedule: seq<(nat, Action)>, more: seq<(nat, Action)>)
    requires |items| > 0
    ensures Extends(Run(Init(items, n), schedule), Run(Init(items, n), schedule + more))
  {
    hide Safe, Run, Extends;
    EveryRunSafe(items, n, schedule);
    RunExtends(Run(Init(items, n), schedule), more);
    RunAppend(Init(items, n), schedule, more);
  }

  // ---- order and exclusion ----

  /** A pop with ticket `t` returns the item the push with ticket `t` stored; below the barriers a ticket
      is held by one thread at a time, and two threads past their id checks own different slots. */
  lemma FifoAndExclusion(items: seq<Item>, n: nat, schedule: seq<(nat, Action)>)
    requires |items| > 0
    ensures var s := Run(Init(items, n), schedule);
      && (forall t: nat :: t in s.h.taken ==> t in s.h.stored && s.h.taken[t] == s.h.stored[t])
      && (forall i: nat :: i < |s.threads| && s.threads[i].Op? && s.threads[i].pc.Done? && s.threads[i].res.Ok? ==>
            s.threads[i].word.ticket in s.h.stored && s.h.stored[s.threads[i].word.ticket] == s.threads[i].item)
      && (forall i: nat, j: nat, d, t: nat ::
            i < j < |s.threads| && HoldsTicket(s.threads[i], d, t) && HoldsTicket(s.threads[j], d, t) ==> Past(s.sh, d, t))
      && (forall i: nat, j: nat :: i < j < |s.threads| && OwnsSlot(s.threads[i]) && OwnsSlot(s.threads[j]) ==>
            Slot(s.sh.capacity, s.threads[i].word.ticket) != Slot(s.sh.capacity, s.threads[j].word.ticket))
  {
    EveryRunSafe(items, n, schedule);
    var s := Run(Init(items, n), schedule);
    hide Run, TicketsOk, CountsOk, CloserOk, ItemsOk, NotesOk, SleepersOk, CloseAttended, Slot, Want, CarryOk, PastOk;
    assert forall i: nat :: i < |s.threads| ==> ThreadOk(s.sh, s.h, i, s.threads[i]);
    forall i: nat, j: nat | i < j < |s.threads| && OwnsSlot(s.threads[i]) && OwnsSlot(s.threads[j])
      ensures Slot(s.sh.capacity, s.threads[i].word.ticket) != Slot(s.sh.capacity, s.threads[j].word.ticket)
    {
      hide LogsOk;
      OwnersApart(s.sh, s.h, i, s.threads[i], j, s.threads[j]);
    }
  }

  ghost predicate OwnsSlot(l: Local) {
    l.Op? && (l.pc.Copy? || l.pc.Exchange?)
  }

  /** At most `capacity` items are stored and not yet taken. */
  lemma AtMostCapacity(items: seq<Item>, n: nat, schedule: seq<(nat, Action)>)
    requires |items| > 0
    ensures var s := Run(Init(items, n), schedule);
      |s.h.stored.Keys - s.h.taken.Keys| <= s.sh.capacity == |items|
  {
    EveryRunSafe(items, n, schedule);
    var s := Run(Init(items, n), schedule);
    RunCapacity(Init(items, n), schedule);
    hide Run, TicketsOk, CountsOk, SharedOk, SleepersOk, CloseAttended, ThreadOk, Slot;
    var live := s.h.stored.Keys - s.h.taken.Keys;
    forall t, u | t in live && u in live && Slot(s.sh.capacity, t) == Slot(s.sh.capacity, u) ensures t == u {
      LiveDistinct(s.sh, s.h, t, u);
    }
    DistinctSlots(s.sh.capacity, live);
  }

  lemma LiveDistinct(sh: Shared, h: History, t: nat, u: nat)
    requires WellShaped(sh) && SharedOk(sh, h)
    requires t in h.stored && t !in h.taken && u in h.stored && u !in h.taken
    requires Slot(sh.capacity, t) == Slot(sh.capacity, u)
    ensures t == u
  {
    var C := sh.capacity;
    hide Limit, Shut, FlagsOk, BarriersOk, ItemsOk, NotesOk;
    assert h.stored == Log(h, PushSide) && h.taken == Log(h, PopSide);
    assert Reached(sh, PushSide, t) && !IsDone(sh, PopSide, t);
    assert Reached(sh, PushSide, u) && !IsDone(sh, PopSide, u);
    hide LogsOk;
    TicketUnique(C, PushSide, t, PushSide, u);
  }

  lemma {:induction false} RunCapacity(s: State, schedule: seq<(nat, Action)>)
    requires WellShaped(s.sh)
    ensures Run(s, schedule).sh.capacity == s.sh.capacity && |Run(s, schedule).threads| == |s.threads|
    decreases |schedule|
  {
    hide Next;
    if schedule != [] { RunCapacity(s, schedule[..|schedule| - 1]); }
  }

  lemma {:induction false} DistinctSlots(C: nat, ts: set<nat>)
    requires C > 0 && forall t, u :: t in ts && u in ts && Slot(C, t) == Slot(C, u) ==> t == u
    ensures |ts| <= C
  {
    hide Slot;
    var slots := set t | t in ts :: Slot(C, t);
    SameSize(C, ts, slots);
    SubsetSize(slots, Below(C));
  }

  lemma {:induction false} SameSize(C: nat, ts: set<nat>, slots: set<nat>)
    requires C > 0 && forall t, u :: t in ts && u in ts && Slot(C, t) == Slot(C, u) ==> t == u
    requires slots == set t | t in ts :: Slot(C, t)
    ensures |slots| == |ts|
    decreases ts
  {
    hide Slot;
    if ts != {} {
      var x :| x in ts;
      SameSize(C, ts - {x}, slots - {Slot(C, x)});
    }
  }

  /** A `try` operation whose compare-exchange is about to succeed still finds its slot ready. */
  lemma TryCasStillReady(items: seq<Item>, n: nat, schedule: seq<(nat, Action)>, i: nat)
    requires |items| > 0 && i < |Run(Init(items, n), schedule).threads|
    requires var s := Run(Init(items, n), schedule);
      s.threads[i].Op? && s.threads[i].pc.TryCas? && Counter(s.sh, s.threads[i].side) == s.threads[i].word
    ensures var s := Run(Init(items, n), schedule);
      var t := s.threads[i].word.ticket;
      && s.sh.ids[Slot(s.sh.capacity, t)].phase == Want(s.sh.capacity, s.threads[i].side, t)
      && !Past(s.sh, s.threads[i].side, t)
  {
    EveryRunSafe(items, n, schedule);
    var s := Run(Init(items, n), schedule);
    hide Run, SharedOk, CountsOk, SleepersOk, CloseAttended, CloserOk, Slot, Want;
    assert ThreadOk(s.sh, s.h, i, s.threads[i]);
    assert !IsDone(s.sh, s.threads[i].side, s.threads[i].word.ticket);
  }

  // ---- convergence ----

  /** After a close each counter exceeds its barrier by exactly the number of threads that still have to
      back off, and the barriers are at most `capacity` apart. */
  lemma CloseConvergence(items: seq<Item>, n: nat, schedule: seq<(nat, Action)>)
    requires |items| > 0
    ensures var s := Run(Init(items, n), schedule);
      && (Shut(s.sh, PushSide) ==> s.sh.tail.ticket == s.sh.tailBarrier + |PastHolders(s, PushSide)|)
      && (Shut(s.sh, PopSide) && s.sh.headBarrier <= s.sh.head.ticket ==>
            s.sh.head.ticket == s.sh.headBarrier + |PastHolders(s, PopSide)|)
      && (Shut(s.sh, PopSide) && s.sh.head.ticket < s.sh.headBarrier ==> PastHolders(s, PopSide) == {})
      && (Shut(s.sh, PopSide) ==> s.sh.headBarrier <= s.sh.tailBarrier <= s.sh.headBarrier + s.sh.capacity)
  {
    EveryRunSafe(items, n, schedule);
    var s := Run(Init(items, n), schedule);
    hide Run, TicketsOk, SleepersOk, CloseAttended, ThreadOk, PastHolders, LogsOk, ItemsOk, NotesOk;
  }

  /** The library's own consistency test of a channel nobody is using. */
  ghost predicate ConsistentConverged(sh: Shared)
    requires WellShaped(sh)
  {
    var filledTo := if sh.tail.ticket < sh.head.ticket + sh.capacity then sh.tail.ticket else sh.head.ticket + sh.capacity;
    && (if sh.closing.closed then
          && 0 <= sh.tailBarrier - sh.headBarrier <= sh.capacity
          && (sh.tail.pushClosed || sh.head.pushClosed) && sh.head.popClosed
        else
          && !sh.tail.pushClosed && !sh.head.pushClosed && !sh.head.popClosed
          && sh.tailBarrier == 0 && sh.headBarrier == 0)
    && (forall t: nat :: sh.head.ticket <= t < filledTo ==>
          sh.ids[Slot(sh.capacity, t)].phase == Want(sh.capacity, PopSide, t))
    && (forall t: nat :: filledTo <= t < sh.head.ticket + sh.capacity ==>
          sh.ids[Slot(sh.capacity, t)].phase == Want(sh.capacity, PushSide, t))
  }

  /** When every thread is idle, closed or not, the channel passes its consistency test, its tickets from
      head to tail are exactly the items stored and not taken, and their slots hold them in order. */
  lemma QuiescentConverged(items: seq<Item>, n: nat, schedule: seq<(nat, Action)>)
    requires |items| > 0
    requires var s := Run(Init(items, n), schedule); forall i :: 0 <= i < |s.threads| ==> s.threads[i].Idle?
    ensures var s := Run(Init(items, n), schedule);
      && ConsistentConverged(s.sh)
      && (forall t: nat :: t in s.h.stored && t !in s.h.taken <==> s.sh.head.ticket <= t < s.sh.tail.ticket)
      && (forall t: nat :: s.sh.head.ticket <= t < s.sh.tail.ticket ==>
            t in s.h.stored && s.sh.items[Slot(s.sh.capacity, t)] == s.h.stored[t])
      && (Shut(s.sh, PushSide) ==> s.sh.tail.ticket == s.sh.tailBarrier)
      && (Shut(s.sh, PopSide) ==> s.sh.head.ticket <= s.sh.headBarrier)
  {
    EveryRunSafe(items, n, schedule);
    CloseConvergence(items, n, schedule);
    var s := Run(Init(items, n), schedule);
    hide Run;
    assert forall d :: PastHolders(s, d) == {};
    QuietTickets(s);
    QuietSlots(s.sh, s.h);
    hide TicketsOk, SleepersOk, ThreadOk, Slot, Want, PastHolders, IsDone;
    assert s.h.stored == Log(s.h, PushSide) && s.h.taken == Log(s.h, PopSide);
  }

  lemma QuietTickets(s: State)
    requires Inv(s) && (forall i :: 0 <= i < |s.threads| ==> s.threads[i].Idle?)
    ensures forall d, t: nat :: IsDone(s.sh, d, t) <==> t < Limit(s.sh, d)
  {
    hide SharedOk, CountsOk, Limit, IsDone;
  }

  lemma QuietSlots(sh: Shared, h: History)
    requires WellShaped(sh) && (forall d, t: nat :: IsDone(sh, d, t) <==> t < Limit(sh, d))
    ensures Limit(sh, PopSide) <= Limit(sh, PushSide) <= Limit(sh, PopSide) + sh.capacity
    ensures forall t: nat :: Limit(sh, PopSide) <= t < Limit(sh, PushSide) ==>
              sh.ids[Slot(sh.capacity, t)].phase == Want(sh.capacity, PopSide, t)
    ensures forall t: nat :: Limit(sh, PushSide) <= t < Limit(sh, PopSide) + sh.capacity ==>
              sh.ids[Slot(sh.capacity, t)].phase == Want(sh.capacity, PushSide, t)
  {
    var C := sh.capacity;
    var h, t := Limit(sh, PopSide), Limit(sh, PushSide);
    WantShape(C);
    hide Limit, Want, Slot;
    if h > 0 {
      assert IsDone(sh, PopSide, h - 1);
      assert IsDone(sh, PushSide, h - 1);
    }
    if t > 0 { LapWant(C, t - 1); }
    assert t > h + C ==> IsDone(sh, PushSide, t - 1);
    assert t > h + C ==> IsDone(sh, PopSide, t - 1 - C);
    forall u: nat | h <= u < t ensures sh.ids[Slot(C, u)].phase == Want(C, PopSide, u) {
      assert IsDone(sh, PushSide, u) && !IsDone(sh, PopSide, u);
    }
    forall u: nat | t <= u < h + C ensures sh.ids[Slot(C, u)].phase == Want(C, PushSide, u) {
      LapWant(C, u);
      assert !IsDone(sh, PushSide, u);
      if u >= C { assert IsDone(sh, PopSide, u - C); }
    }
  }

  lemma LapWant(C: nat, t: nat)
    requires C > 0
    ensures t < C ==> Want(C, PushSide, t) == 0
    ensures t >= C ==> Slot(C, t - C) == Slot(C, t) && Want(C, PopSide, t - C) + 1 == Want(C, PushSide, t)
  {
    if t >= C { LapBefore(C, t); }
  }

  // ---- progress ----

  /** The owner of ticket `t` finds its slot ready and, if it is asleep, is about to be woken. */
  ghost predicate CanFinish(s: State, d: Side, t: nat)
    requires WellShaped(s.sh)
  {
    && t < Limit(s.sh, d) && HeldByOwner(s, d, t)
    && s.sh.ids[Slot(s.sh.capacity, t)].phase == Want(s.sh.capacity, d, t)
    && (s.threads[Owner(s.h, d)[t]].pc.Asleep? ==> WakePending(s, Slot(s.sh.capacity, t)))
  }

  lemma ReadyCanFinish(s: State, d: Side, t: nat)
    requires Safe(s) && t < Limit(s.sh, d) && !IsDone(s.sh, d, t) && Reached(s.sh, d, t)
    ensures CanFinish(s, d, t)
  {
    hide SharedOk, CountsOk, CloserOk, CloseAttended, HoldOk, OwnOk, PastOk, Slot, Want;
    assert HeldByOwner(s, d, t);
    var o := Owner(s.h, d)[t];
    assert ThreadOk(s.sh, s.h, o, s.threads[o]);
  }

  lemma BelowBarrier(s: State, t: nat)
    requires Safe(s) && Shut(s.sh, PushSide) && t < s.sh.tailBarrier
    ensures t < Limit(s.sh, PushSide)
  {
    hide TicketsOk, CountsOk, ThreadOk, SleepersOk, CloseAttended;
  }

  /** A push that is not ready waits for the pop one lap before it. */
  lemma WaitsForPop(s: State, t: nat)
    requires Safe(s) && Shut(s.sh, PushSide) && t < s.sh.tailBarrier && !Reached(s.sh, PushSide, t)
    ensures t >= s.sh.capacity > 0 && t - s.sh.capacity < Limit(s.sh, PopSide) && !IsDone(s.sh, PopSide, t - s.sh.capacity)
  {
    hide TicketsOk, CountsOk, ThreadOk, SleepersOk, CloseAttended, Slot, Want;
    LapWant(s.sh.capacity, t);
  }

  /** While a push below a published tail barrier is unfinished, some operation at or before it can finish. */
  lemma {:induction false} PushNotStranded(s: State, t: nat) returns (d: Side, u: nat)
    requires Safe(s) && Shut(s.sh, PushSide) && t < s.sh.tailBarrier && !IsDone(s.sh, PushSide, t)
    ensures u <= t && CanFinish(s, d, u)
    decreases t, 1
  {
    hide Slot, Want, CanFinish, Safe, Limit, IsDone, Reached, Shut;
    BelowBarrier(s, t);
    SafeShape(s);
    if Reached(s.sh, PushSide, t) {
      ReadyCanFinish(s, PushSide, t);
      d, u := PushSide, t;
    } else {
      WaitsForPop(s, t);
      d, u := PopNotStranded(s, t - s.sh.capacity);
    }
  }

  /** The same for a pop whose item is on its way. */
  lemma {:induction false} PopNotStranded(s: State, t: nat) returns (d: Side, u: nat)
    requires Safe(s) && Shut(s.sh, PushSide) && t < s.sh.tailBarrier && t < Limit(s.sh, PopSide)
    requires !IsDone(s.sh, PopSide, t)
    ensures u <= t && CanFinish(s, d, u)
    decreases t, 2
  {
    if Reached(s.sh, PopSide, t) {
      ReadyCanFinish(s, PopSide, t);
      d, u := PopSide, t;
    } else {
      WantShape(s.sh.capacity);
      hide Slot, Want, CanFinish, Inv, Limit;
      d, u := PushNotStranded(s, t);
    }
  }

  /** In every state of every run: while an operation below a published barrier is unfinished, some operation at or
      before it is ready. `ChannelDrain` has the runs that finish them all. */
  lemma NobodyStranded(items: seq<Item>, n: nat, schedule: seq<(nat, Action)>, d: Side, t: nat)
    requires |items| > 0
    requires var s := Run(Init(items, n), schedule);
      Shut(s.sh, d) && t < Limit(s.sh, d) && !IsDone(s.sh, d, t)
    ensures var s := Run(Init(items, n), schedule);
      exists e: Side, u: nat :: u <= t && CanFinish(s, e, u)
  {
    EveryRunSafe(items, n, schedule);
    var s := Run(Init(items, n), schedule);
    hide Run;
    assert Shut(s.sh, PushSide) && t < s.sh.tailBarrier by { hide TicketsOk, CountsOk, ThreadOk, LogsOk, NotesOk, ItemsOk; }
    hide Safe, CanFinish, IsDone;
    var e, u;
    if d.PushSide? {
      assert d == PushSide;
      e, u := PushNotStranded(s, t);
    } else {
      assert d == PopSide;
      e, u := PopNotStranded(s, t);
    }
    assert u <= t && CanFinish(s, e, u);
  }

  /** Once a close is complete, a sleeper that it turned away has a wake-up coming. */
  lemma TurnedAwayIsWoken(s: State, i: nat)
    requires Safe(s) && s.sh.closing.closed && i < |s.threads| && s.threads[i].Op? && s.threads[i].pc.Asleep?
    requires Past(s.sh, s.threads[i].side, s.threads[i].word.ticket)
    ensures WakePending(s, Slot(s.sh.capacity, s.threads[i].word.ticket))
  {
    hide TicketsOk, CountsOk, CloserOk, CloseAttended, HoldOk, OwnOk, LogsOk, ItemsOk, Slot, Want;
    var l := s.threads[i];
    assert ThreadOk(s.sh, s.h, i, l);
    assert Stale(s.sh, s.h, l);
    assert Slot(s.sh.capacity, l.word.ticket) in Notified(s.h, l.side);
    assert !SeesItsValue(s.sh, l);
  }

  /** In every run: a sleeper either still sees the exact value it slept on or has a wake-up coming, and once
      the close is complete every sleeper at or past its barrier has a wake-up coming. */
  lemma NoLostWakeUp(items: seq<Item>, n: nat, schedule: seq<(nat, Action)>, i: nat)
    requires |items| > 0 && i < |Run(Init(items, n), schedule).threads|
    requires var l := Run(Init(items, n), schedule).threads[i]; l.Op? && l.pc.Asleep?
    ensures var s := Run(Init(items, n), schedule);
      var l := s.threads[i];
      var k := Slot(s.sh.capacity, l.word.ticket);
      && (SeesItsValue(s.sh, l) || WakePending(s, k))
      && (s.sh.closing.closed && Past(s.sh, l.side, l.word.ticket) ==> WakePending(s, k))
  {
    EveryRunSafe(items, n, schedule);
    var s := Run(Init(items, n), schedule);
    hide Run, Inv, CloseAttended, Slot, Want;
    if s.sh.closing.closed && Past(s.sh, s.threads[i].side, s.threads[i].word.ticket) { TurnedAwayIsWoken(s, i); }
  }
}
