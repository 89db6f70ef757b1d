/** Every step of a closing thread keeps the channel invariant. */
module ChannelCloseSteps {
  import opened Arith
  import opened ChannelModel
  import opened ChannelInvariant
  import opened ChannelSteps

  lemma OneLockHolder(s: State, i: nat, j: nat)
    requires Inv(s) && i < |s.threads| && j < |s.threads| && i != j
    requires s.threads[i].Close? && s.threads[j].Close? && HasLock(s.threads[i])
    ensures !HasLock(s.threads[j])
  {
    hide TicketsOk, CountsOk, SharedOk, StageOk, LocalsOk, WakeOk;
    assert ThreadOk(s.sh, s.h, i, s.threads[i]) && ThreadOk(s.sh, s.h, j, s.threads[j]);
  }

  /** A step of the lock holder that keeps every part of the invariant on its own keeps the whole. */
  lemma CloseChange(s: State, s': State, i: nat)
    requires Inv(s) && OthersKept(s, s', i) && s.threads[i].Close? && HasLock(s.threads[i])
    requires WellShaped(s'.sh) && s'.sh.capacity == s.sh.capacity
    requires s'.sh.lockRequested == s.sh.lockRequested && s'.sh.lockCompleted == s.sh.lockCompleted
    requires s'.h.lockOwner == s.h.lockOwner
    requires forall j :: 0 <= j < |s.threads| && s.threads[j].Op? ==> OpOk(s'.sh, s'.h, j, s.threads[j])
    requires s'.threads[i].Close? && CloserOk(s'.sh, s'.h, i, s'.threads[i])
    requires SharedOk(s'.sh, s'.h) && TicketsOk(s') && CountsOk(s')
    ensures Inv(s')
  {
    hide OpOk, SharedOk, TicketsOk, CountsOk;
    forall j | 0 <= j < |s.threads| && j != i ensures ThreadOk(s'.sh, s'.h, j, s'.threads[j]) {
      assert ThreadOk(s.sh, s.h, j, s.threads[j]);
      if s.threads[j].Close? {
        OneLockHolder(s, i, j);
        hide LocalsOk;
      }
    }
  }

  // ---- the lock ----

  lemma LockReqStep(s: State, i: nat, a: Action)
    requires Inv(s) && i < |s.threads| && s.threads[i].Close? && s.threads[i].cpc.CLockReq?
    ensures Inv(CloseNext(s, i, a))
  {
    hide LogsOk, ItemsOk, NotesOk, OpOk, TicketsOk, CountsOk, Covered;
    var s' := CloseNext(s, i, a);
    LockFieldsShared(s.sh, s'.sh, s.h, s'.h);
    KeepTickets(s, s', i);
    SameCounts(s, s', i);
    forall j | 0 <= j < |s.threads| && j != i ensures ThreadOk(s'.sh, s'.h, j, s'.threads[j]) {
      hide StageOk, LocalsOk, WakeOk;
      assert ThreadOk(s.sh, s.h, j, s.threads[j]);
      LockFieldsThread(s.sh, s'.sh, s.h, s'.h, j, s.threads[j]);
    }
  }

  ghost predicate OnlyLockChanged(sh: Shared, sh': Shared, h: History, h': History) {
    && sh' == sh.(lockRequested := sh'.lockRequested, lockCompleted := sh'.lockCompleted)
    && h' == h.(lockOwner := h'.lockOwner)
  }

  lemma LockFieldsShared(sh: Shared, sh': Shared, h: History, h': History)
    requires WellShaped(sh) && SharedOk(sh, h) && OnlyLockChanged(sh, sh', h, h') && sh'.lockCompleted <= sh'.lockRequested
    ensures SharedOk(sh', h') && forall d :: Limit(sh', d) == Limit(sh, d)
  {
    assert forall d :: Limit(sh', d) == Limit(sh, d) && Log(h', d) == Log(h, d) && Notified(h', d) == Notified(h, d);
    assert forall d, t: nat :: (IsDone(sh', d, t) <==> IsDone(sh, d, t)) && (Reached(sh', d, t) <==> Reached(sh, d, t));
  }

  lemma LockFieldsThread(sh: Shared, sh': Shared, h: History, h': History, j: nat, l: Local)
    requires WellShaped(sh) && OnlyLockChanged(sh, sh', h, h') && ThreadOk(sh, h, j, l)
    ensures l.Op? ==> OpOk(sh', h', j, l)
    ensures l.Close? ==> StageOk(sh', l) && LocalsOk(sh', h', l) && WakeOk(sh', h', l)
  {
  }

  lemma UnlockStep(s: State, i: nat, a: Action)
    requires Inv(s) && i < |s.threads| && s.threads[i].Close? && s.threads[i].cpc.CUnlock?
    ensures Inv(CloseNext(s, i, a))
  {
    hide SharedOk, StageOk, LocalsOk, WakeOk, OpOk, TicketsOk, CountsOk;
    var s' := CloseNext(s, i, a);
    assert ThreadOk(s.sh, s.h, i, s.threads[i]);
    LockFieldsShared(s.sh, s'.sh, s.h, s'.h);
    KeepTickets(s, s', i);
    SameCounts(s, s', i);
    assert ThreadOk(s.sh, s.h, i, s.threads[i]);
    forall j | 0 <= j < |s.threads| ensures ThreadOk(s'.sh, s'.h, j, s'.threads[j]) {
      assert ThreadOk(s.sh, s.h, j, s.threads[j]);
      LockFieldsThread(s.sh, s'.sh, s.h, s'.h, j, s.threads[j]);
      if j != i && s.threads[j].Close? { OneLockHolder(s, i, j); }
    }
  }

  // ---- reading steps ----

  lemma CloseLoadCloser(sh: Shared, h: History, i: nat, l: Local)
    requires WellShaped(sh) && SharedOk(sh, h) && l.Close? && CloserOk(sh, h, i, l)
    requires Shut(sh, PushSide) ==> h.shutTail <= sh.tail.ticket + sh.tailCancels
    requires || l.cpc.CIsClosed? || l.cpc.CLockWait? || l.cpc.CRecheck? || l.cpc.CLoadTail? || l.cpc.CLoadHead?
             || l.cpc.CReloadTail? || l.cpc.CLoadCancels? || l.cpc.CLoadHead2?
    ensures ThreadOk(sh, h, i, CloseAfterLoad(sh, l))
  {
    hide LogsOk, ItemsOk, NotesOk, Covered;
  }

  lemma CloseLoadStep(s: State, i: nat, a: Action)
    requires Inv(s) && i < |s.threads| && s.threads[i].Close?
    requires var pc := s.threads[i].cpc;
      || pc.CIsClosed? || pc.CLockWait? || pc.CRecheck? || pc.CLoadTail? || pc.CLoadHead?
      || pc.CReloadTail? || pc.CLoadCancels? || pc.CLoadHead2?
    ensures Inv(CloseNext(s, i, a))
  {
    hide OpOk, CloserOk, SharedOk, TicketsOk, BackingOff, PastHolders;
    var l := s.threads[i];
    assert ThreadOk(s.sh, s.h, i, l);
    CloseLoadCloser(s.sh, s.h, i, l);
    hide CountsOk;
    Quiet(s, i, CloseAfterLoad(s.sh, l));
  }

  // ---- closing flags and barrier stores ----

  /** Only the closing flags and barriers that are not published yet change. */
  ghost predicate Staged(sh: Shared, sh': Shared) {
    && sh' == sh.(closing := sh'.closing, tailBarrier := sh'.tailBarrier, headBarrier := sh'.headBarrier)
    && (Shut(sh, PushSide) ==> sh'.tailBarrier == sh.tailBarrier)
    && (Shut(sh, PopSide) ==> sh'.headBarrier == sh.headBarrier)
  }

  lemma StagedShared(sh: Shared, sh': Shared, h: History)
    requires WellShaped(sh) && SharedOk(sh, h) && Staged(sh, sh') && FlagsOk(sh')
    requires sh'.closing.closed ==>
      && Covered(sh.capacity, sh.headBarrier, h.shutHead, h.notifiedHead)
      && Covered(sh.capacity, sh.tailBarrier, h.shutTail, h.notifiedTail)
    ensures SharedOk(sh', h) && Calm(sh, h, sh', h) && forall d :: Limit(sh', d) == Limit(sh, d)
  {
    assert forall d :: Limit(sh', d) == Limit(sh, d);
    assert forall d, t: nat :: (IsDone(sh', d, t) <==> IsDone(sh, d, t)) && (Reached(sh', d, t) <==> Reached(sh, d, t));
  }

  lemma StagedChange(s: State, sh': Shared, i: nat, l': Local)
    requires Inv(s) && i < |s.threads| && s.threads[i].Close? && HasLock(s.threads[i])
    requires Staged(s.sh, sh') && FlagsOk(sh')
    requires sh'.closing.closed ==>
      && Covered(s.sh.capacity, s.sh.headBarrier, s.h.shutHead, s.h.notifiedHead)
      && Covered(s.sh.capacity, s.sh.tailBarrier, s.h.shutTail, s.h.notifiedTail)
    requires l'.Close? && CloserOk(sh', s.h, i, l')
    ensures Inv(State(sh', s.h, s.threads[i := l']))
  {
    var s' := State(sh', s.h, s.threads[i := l']);
    hide OpOk, CloserOk, SharedOk, TicketsOk, CountsOk, Covered;
    StagedShared(s.sh, sh', s.h);
    KeepTickets(s, s', i);
    SameCounts(s, s', i);
    forall j | 0 <= j < |s.threads| && s.threads[j].Op? ensures OpOk(sh', s.h, j, s.threads[j]) {
      assert ThreadOk(s.sh, s.h, j, s.threads[j]);
      hide Calm;
      OpFrame(s.sh, s.h, sh', s.h, j, s.threads[j]);
    }
    CloseChange(s, s', i);
  }

  lemma FlagStep(s: State, i: nat, a: Action)
    requires Inv(s) && i < |s.threads| && s.threads[i].Close?
    requires var pc := s.threads[i].cpc; pc.COrPush? || pc.COrPop? || pc.COrClosed?
    ensures Inv(CloseNext(s, i, a))
  {
    hide OpOk, LogsOk, ItemsOk, NotesOk, TicketsOk, CountsOk, Covered;
    assert ThreadOk(s.sh, s.h, i, s.threads[i]);
    var s' := CloseNext(s, i, a);
    StagedChange(s, s'.sh, i, s'.threads[i]);
  }

  lemma StoreBarrierStep(s: State, i: nat, a: Action)
    requires Inv(s) && i < |s.threads| && s.threads[i].Close?
    requires s.threads[i].cpc.CStoreBarrier? || s.threads[i].cpc.CStoreHead?
    ensures Inv(CloseNext(s, i, a))
  {
    hide OpOk, LogsOk, ItemsOk, NotesOk, TicketsOk, CountsOk, Covered;
    assert ThreadOk(s.sh, s.h, i, s.threads[i]);
    var s' := CloseNext(s, i, a);
    StagedChange(s, s'.sh, i, s'.threads[i]);
  }

  // ---- publishing a barrier ----

  ghost function HoldersIn(s: State, d: Side, lo: nat, hi: nat): set<nat> {
    set i: nat | i < |s.threads| && Holds(s.threads[i]) && s.threads[i].side == d && lo <= s.threads[i].word.ticket < hi
  }

  /** While a side is open, its unfinished tickets and the threads holding them correspond one to one. */
  lemma {:induction false} CountHolders(s: State, d: Side, lo: nat, hi: nat)
    requires WellShaped(s.sh) && !Shut(s.sh, d) && lo <= hi <= Counter(s.sh, d).ticket
    requires forall t: nat :: lo <= t < hi ==> HeldByOwner(s, d, t)
    requires forall i: nat :: i < |s.threads| && Holds(s.threads[i]) && s.threads[i].side == d ==>
               s.threads[i].word.ticket in Owner(s.h, d) && Owner(s.h, d)[s.threads[i].word.ticket] == i
    ensures |HoldersIn(s, d, lo, hi)| == hi - lo
    decreases hi
  {
    hide Holds;
    if lo < hi {
      CountHolders(s, d, lo, hi - 1);
      assert HeldByOwner(s, d, hi - 1);
      var o := Owner(s.h, d)[hi - 1];
      assert HoldersIn(s, d, lo, hi) == HoldersIn(s, d, lo, hi - 1) + {o};
    } else {
      assert HoldersIn(s, d, lo, hi) == {};
    }
  }

  /** Side `d` becomes shut; nothing else that threads look at changes. */
  ghost predicate Published(sh: Shared, sh': Shared, h: History, h': History, d: Side) {
    && !Shut(sh, d) && Shut(sh', d)
    && sh' == sh.(head := sh'.head, tail := sh'.tail)
    && (forall e :: Counter(sh', e).ticket == Counter(sh, e).ticket)
    && (d.PushSide? ==>
          && !Shut(sh, PopSide) && !Shut(sh', PopSide)
          && h' == h.(shutTail := sh.tail.ticket))
    && (d.PopSide? ==>
          && sh'.tail == sh.tail && sh'.head == sh.head.(popClosed := true)
          && h' == h.(shutHead := sh.head.ticket))
  }

  /** A ticket whose slot was already ready lies below the barrier; `try` operations that did not
      take their ticket yet may also be bound to lose their race. */
  ghost predicate Separates(sh: Shared, sh': Shared, h: History, d: Side)
    requires WellShaped(sh)
  {
    && (forall t: nat :: Reached(sh, d, t) && t < Counter(sh, d).ticket ==> t < Barrier(sh, d))
    && (forall t: nat :: Reached(sh, d, t) && Barrier(sh, d) <= t ==>
          if d.PushSide? then sh'.tail.pushClosed else sh'.head.popClosed)
  }

  lemma PublishOp(sh: Shared, sh': Shared, h: History, h': History, d: Side, j: nat, l: Local)
    requires WellShaped(sh) && SharedOk(sh, h) && Published(sh, sh', h, h', d) && Separates(sh, sh', h, d)
    requires l.Op? && OpOk(sh, h, j, l)
    ensures OpOk(sh', h', j, l)
  {
    hide LogsOk, ItemsOk, Covered;
    if l.side == d {
      PublishSameSide(sh, sh', h, h', j, l);
    } else {
      hide IsDone;
    }
  }

  lemma PublishSameSide(sh: Shared, sh': Shared, h: History, h': History, j: nat, l: Local)
    requires WellShaped(sh) && FlagsOk(sh) && NotesOk(sh, h) && l.Op? && OpOk(sh, h, j, l)
    requires Published(sh, sh', h, h', l.side) && Separates(sh, sh', h, l.side)
    ensures OpOk(sh', h', j, l)
  {
    hide Covered, Slot, Want;
    var t := l.word.ticket;
    assert HoldOk(sh', h', j, l);
    assert CarryOk(sh', l);
    assert l.pc.Copy? || l.pc.Exchange? ==> Reached(sh, l.side, t);
    assert CarriesId(l) && l.curr.phase == Want(sh.capacity, l.side, t) ==> Reached(sh, l.side, t);
    assert OwnOk(sh', h', l);
    assert Notified(h', l.side) == Notified(h, l.side);
    if Past(sh', l.side, t) && CarriesId(l) {
      if l.try {
        assert Harmless(sh', h', l);
      } else {
        assert Stale(sh', h', l);
      }
    }
  }

  lemma PublishShared(sh: Shared, sh': Shared, h: History, h': History, d: Side)
    requires WellShaped(sh) && SharedOk(sh, h) && Published(sh, sh', h, h', d) && Separates(sh, sh', h, d)
    requires FlagsOk(sh') && BarriersOk(sh', h')
    ensures SharedOk(sh', h')
  {
    hide Slot, Want, Covered;
    assert forall e, t: nat :: (IsDone(sh', e, t) <==> IsDone(sh, e, t)) && (Reached(sh', e, t) <==> Reached(sh, e, t));
    assert forall e :: Log(h', e) == Log(h, e) && Notified(h', e) == Notified(h, e);
    forall e, t: nat | t in Log(h', e) ensures t < Limit(sh', e) {
      assert t in Log(h, e);
    }
    hide BarriersOk, IsDone, Reached;
  }

  lemma PublishTickets(s: State, s': State, i: nat, d: Side)
    requires WellShaped(s.sh) && TicketsOk(s) && OthersKept(s, s', i) && !Holds(s.threads[i])
    requires Published(s.sh, s'.sh, s.h, s'.h, d) && Separates(s.sh, s'.sh, s.h, d)
    ensures TicketsOk(s')
  {
    assert forall e, t: nat :: IsDone(s'.sh, e, t) <==> IsDone(s.sh, e, t);
    forall e, t: nat | IsDone(s'.sh, e, t) ensures t < Limit(s'.sh, e) {
      assert IsDone(s.sh, e, t) && Reached(s.sh, e, t);
    }
    forall e, t: nat | t < Limit(s'.sh, e) ensures IsDone(s'.sh, e, t) || HeldByOwner(s', e, t) {
      assert t < Limit(s.sh, e);
      hide IsDone, Holds;
      assert IsDone(s.sh, e, t) || HeldByOwner(s, e, t);
    }
  }

  lemma PublishCounts(s: State, s': State, i: nat, d: Side)
    requires Inv(s) && OthersKept(s, s', i) && s.threads[i].Close? && s'.threads[i].Close?
    requires Published(s.sh, s'.sh, s.h, s'.h, d) && Separates(s.sh, s'.sh, s.h, d)
    ensures CountsOk(s')
  {
    hide SharedOk, CloserOk, OwnOk, CarryOk;
    PublishExcess(s, s', i, d);
    assert PopSide != PushSide;
    BackingOffUpdate(s, s', i);
    if d.PushSide? {
      assert d == PushSide;
      forall j: nat | j < |s.threads| ensures !BacksOff(s.threads[j]) {
        assert ThreadOk(s.sh, s.h, j, s.threads[j]);
      }
      assert BackingOff(s) == {};
    } else {
      assert d == PopSide;
      HoldersUpdate(s, s', i, PushSide);
    }
  }

  lemma PublishExcess(s: State, s': State, i: nat, d: Side)
    requires Inv(s) && OthersKept(s, s', i) && s.threads[i].Close? && s'.threads[i].Close?
    requires Published(s.sh, s'.sh, s.h, s'.h, d) && Separates(s.sh, s'.sh, s.h, d)
    ensures |PastHolders(s', d)| == Excess(s'.sh, d)
  {
    var lo, hi := Barrier(s.sh, d), Counter(s.sh, d).ticket;
    forall j: nat | j < |s.threads| && Holds(s.threads[j]) && s.threads[j].side == d
      ensures s.threads[j].word.ticket < hi
      ensures s.threads[j].word.ticket in Owner(s.h, d) && Owner(s.h, d)[s.threads[j].word.ticket] == j
    {
      hide SharedOk, TicketsOk, CountsOk, CloserOk, OwnOk, CarryOk, PastOk;
      assert ThreadOk(s.sh, s.h, j, s.threads[j]);
    }
    forall t: nat | lo <= t < hi ensures HeldByOwner(s, d, t) {
      hide SharedOk, CountsOk, ThreadOk, Holds;
      assert Reached(s.sh, d, t) || !IsDone(s.sh, d, t);
    }
    hide Inv, Holds;
    if lo <= hi {
      CountHolders(s, d, lo, hi);
      assert PastHolders(s', d) == HoldersIn(s, d, lo, hi);
    } else {
      assert PastHolders(s', d) == {};
    }
  }

  lemma Publish(s: State, s': State, i: nat, d: Side)
    requires Inv(s) && OthersKept(s, s', i) && s.threads[i].Close? && HasLock(s.threads[i])
    requires Published(s.sh, s'.sh, s.h, s'.h, d) && Separates(s.sh, s'.sh, s.h, d)
    requires FlagsOk(s'.sh) && BarriersOk(s'.sh, s'.h)
    requires s'.threads[i].Close? && CloserOk(s'.sh, s'.h, i, s'.threads[i])
    ensures Inv(s')
  {
    hide SharedOk, TicketsOk, CountsOk, CloserOk, OpOk, Separates, BarriersOk, FlagsOk;
    PublishShared(s.sh, s'.sh, s.h, s'.h, d);
    PublishTickets(s, s', i, d);
    PublishCounts(s, s', i, d);
    forall j | 0 <= j < |s.threads| && s.threads[j].Op? ensures OpOk(s'.sh, s'.h, j, s.threads[j]) {
      assert ThreadOk(s.sh, s.h, j, s.threads[j]);
      hide Published;
      PublishOp(s.sh, s'.sh, s.h, s'.h, d, j, s.threads[j]);
    }
    CloseChange(s, s', i);
  }

  /** The head compare-exchange succeeded: no pop ticket `head + capacity` laps back from was handed out. */
  lemma HeadBranchSeparates(s: State, sh': Shared)
    requires WellShaped(s.sh) && TicketsOk(s) && !Shut(s.sh, PopSide)
    requires s.sh.tailBarrier == s.sh.head.ticket + s.sh.capacity
    ensures Separates(s.sh, sh', s.h, PushSide)
  {
    forall t: nat | Reached(s.sh, PushSide, t) ensures t < s.sh.tailBarrier {
      ReadyPush(s.sh, t);
      hide IsDone, Slot, Want;
      if t >= s.sh.capacity { assert IsDone(s.sh, PopSide, t - s.sh.capacity); }
    }
  }

  lemma CasBarrierStep(s: State, i: nat, a: Action)
    requires Inv(s) && i < |s.threads| && s.threads[i].Close? && s.threads[i].cpc.CCasBarrier?
    ensures Inv(CloseNext(s, i, a))
  {
    hide OpOk, LogsOk, ItemsOk, NotesOk, CountsOk, TicketsOk, Covered;
    var l := s.threads[i];
    assert ThreadOk(s.sh, s.h, i, l);
    var s' := CloseNext(s, i, a);
    if s'.threads[i].cpc.CLoadTail? {
      hide SharedOk;
      Quiet(s, i, s'.threads[i]);
    } else {
      if s'.threads[i].cpc.CReloadTail? {
        HeadBranchSeparates(s, s'.sh);
      }
      Publish(s, s', i, PushSide);
    }
  }

  lemma PopSeparates(s: State, sh': Shared)
    requires WellShaped(s.sh) && TicketsOk(s) && Shut(s.sh, PushSide) && sh'.head.popClosed
    requires s.sh.tailBarrier <= s.sh.headBarrier || s.sh.head.ticket <= s.sh.headBarrier
    requires s.sh.tailBarrier <= s.sh.tail.ticket
    ensures Separates(s.sh, sh', s.h, PopSide)
  {
    WantShape(s.sh.capacity);
    hide Slot, Want;
    forall t: nat | Reached(s.sh, PopSide, t) && t < s.sh.head.ticket ensures t < s.sh.headBarrier {
      assert IsDone(s.sh, PushSide, t);
    }
  }

  lemma EnterRangeOk(sh: Shared, h: History, l: Local, second: bool)
    requires WellShaped(sh) && l.Close? && l.headEnd == h.shutHead && h.shutTail <= l.tailEnd
    requires second ==> Covered(sh.capacity, l.hb, h.shutHead, h.notifiedHead)
    ensures var l' := EnterRange(l, second, sh.capacity);
      && l'.Close? && WakeOk(sh, h, l') && (Waking(l'.cpc) || l'.cpc.COrClosed?)
      && l' == l.(cpc := l'.cpc, second := l'.second, cursor := l'.cursor, to := l'.to)
    decreases !second
  {
    if !second && h.shutHead <= l.hb { EnterRangeOk(sh, h, l, true); }
  }

  lemma CasHeadStep(s: State, i: nat, a: Action)
    requires Inv(s) && i < |s.threads| && s.threads[i].Close?
    requires s.threads[i].cpc.CCasHead? || s.threads[i].cpc.COrHead?
    ensures Inv(CloseNext(s, i, a))
  {
    hide OpOk, LogsOk, ItemsOk, NotesOk, CountsOk, TicketsOk, Covered, EnterRange;
    var l := s.threads[i];
    assert ThreadOk(s.sh, s.h, i, l);
    var s' := CloseNext(s, i, a);
    if s'.threads[i].Close? && s'.threads[i].cpc.CLoadHead2? && s'.sh == s.sh {
      hide SharedOk;
      Quiet(s, i, s'.threads[i]);
    } else {
      PopSeparates(s, s'.sh);
      EnterRangeOk(s'.sh, s'.h, l.(headEnd := s.sh.head.ticket), false);
      hide WakeOk;
      Publish(s, s', i, PopSide);
    }
  }

  // ---- the wake-up loop ----

  /** Visiting one lap of tickets visits every slot. */
  lemma LapCovers(C: nat, from: nat, end: nat, slots: set<nat>)
    requires C > 0 && Covered(C, from, from + C, slots)
    ensures Covered(C, from, end, slots)
  {
    forall t: nat | from <= t < end ensures Slot(C, t) in slots {
      var x := t - from;
      DivMod(C, x);
      var u := from + x % C;
      assert t == u + C * (x / C);
      DivMod(C, u);
      assert t == C * (u / C + x / C) + u % C;
      QuotientUnique(C, t, u / C + x / C, u % C);
      assert Slot(C, u) in slots;
    }
  }

  lemma CoveredMore(C: nat, from: nat, cursor: nat, slots: set<nat>)
    requires C > 0 && Covered(C, from, cursor, slots) && Slot(C, cursor) in slots
    ensures Covered(C, from, cursor + 1, slots)
  {
    hide Slot;
  }

  lemma AfterWakeOk(sh: Shared, h: History, i: nat, l: Local)
    requires WellShaped(sh) && l.Close? && CloserOk(sh, h, i, l) && Waking(l.cpc) && !l.cpc.CWakeOr?
    ensures var l' := AfterWake(l, sh.capacity); l'.Close? && CloserOk(sh, h, i, l')
  {
    var C := sh.capacity;
    var from := if l.second then l.tb else l.hb;
    var end := if l.second then l.tailEnd else l.headEnd;
    var slots := Notified(h, if l.second then PushSide else PopSide);
    CoveredMore(C, from, l.cursor, slots);
    if l.cursor + 1 >= l.to {
      if from + C < end { LapCovers(C, from, end, slots); }
      assert Covered(C, from, end, slots);
      if !l.second {
        hide Covered;
        EnterRangeOk(sh, h, l, true);
      }
    }
    hide Covered, EnterRange;
  }

  lemma WakeLoadStep(s: State, i: nat, a: Action)
    requires Inv(s) && i < |s.threads| && s.threads[i].Close? && s.threads[i].cpc.CWakeLoad?
    ensures Inv(CloseNext(s, i, a))
  {
    hide OpOk, SharedOk, TicketsOk, CountsOk, Covered, AfterWake;
    var l := s.threads[i];
    assert ThreadOk(s.sh, s.h, i, l);
    AfterWakeOk(s.sh, s.h, i, l);
    Quiet(s, i, CloseAfterLoad(s.sh, l));
  }

  lemma WakeCallStep(s: State, i: nat, a: Action)
    requires Inv(s) && i < |s.threads| && s.threads[i].Close? && s.threads[i].cpc.CWakeCall?
    ensures Inv(CloseNext(s, i, a))
  {
    hide OpOk, SharedOk, TicketsOk, CountsOk, AfterWake;
    var l := s.threads[i];
    var k := Slot(s.sh.capacity, l.cursor);
    WakeAllKeeps(s, k);
    var s1 := s.(threads := WakeAll(s.threads, s.sh.capacity, k));
    assert ThreadOk(s.sh, s.h, i, l) && s1.threads[i] == l;
    AfterWakeOk(s.sh, s.h, i, l);
    hide CloserOk;
    Quiet(s1, i, AfterWake(l, s.sh.capacity));
  }

  lemma WakeAndStep(s: State, i: nat, a: Action)
    requires Inv(s) && i < |s.threads| && s.threads[i].Close? && s.threads[i].cpc.CWakeAnd?
    ensures Inv(CloseNext(s, i, a))
  {
    hide OpOk, LogsOk, ItemsOk, TicketsOk, CountsOk, Covered;
    var l := s.threads[i];
    var k := Slot(s.sh.capacity, l.cursor);
    var sh' := SetId(s.sh, k, s.sh.ids[k].(waiting := false));
    assert ThreadOk(s.sh, s.h, i, l);
    Reflag(s, sh', k);
    assert ThreadOk(sh', s.h, i, l);
    hide SharedOk;
    Quiet(s.(sh := sh'), i, l.(cpc := CWakeCall));
  }

  lemma NotifyShared(sh: Shared, sh': Shared, h: History, h': History, k: nat)
    requires WellShaped(sh) && SharedOk(sh, h) && Shut(sh, PopSide) && k < sh.capacity
    requires sh' == SetId(sh, k, sh.ids[k].(notify := true)) && !sh.closing.closed
    requires h' == h.(notifiedTail := h.notifiedTail + {k}) || h' == h.(notifiedHead := h.notifiedHead + {k})
    ensures SharedOk(sh', h') && Calm(sh, h, sh', h') && forall d :: Limit(sh', d) == Limit(sh, d)
  {
    hide Slot, Want;
    assert forall d :: Limit(sh', d) == Limit(sh, d) && Log(h', d) == Log(h, d);
    assert forall d, t: nat :: (IsDone(sh', d, t) <==> IsDone(sh, d, t)) && (Reached(sh', d, t) <==> Reached(sh, d, t));
    hide Limit, IsDone, Reached;
    assert LogsOk(sh', h') && ItemsOk(sh', h');
  }

  lemma WakeOrStep(s: State, i: nat, a: Action)
    requires Inv(s) && i < |s.threads| && s.threads[i].Close? && s.threads[i].cpc.CWakeOr?
    ensures Inv(CloseNext(s, i, a))
  {
    hide OpOk, SharedOk, TicketsOk, CountsOk, LogsOk, ItemsOk, NotesOk;
    var l := s.threads[i];
    var s' := CloseNext(s, i, a);
    var k := Slot(s.sh.capacity, l.cursor);
    assert ThreadOk(s.sh, s.h, i, l);
    NotifyShared(s.sh, s'.sh, s.h, s'.h, k);
    KeepTickets(s, s', i);
    SameCounts(s, s', i);
    forall j | 0 <= j < |s.threads| && s.threads[j].Op? ensures OpOk(s'.sh, s'.h, j, s.threads[j]) {
      assert ThreadOk(s.sh, s.h, j, s.threads[j]);
      hide Calm, CloserOk, Covered;
      OpFrame(s.sh, s.h, s'.sh, s'.h, j, s.threads[j]);
    }
    assert CloserOk(s'.sh, s'.h, i, s'.threads[i]);
    hide Calm, CloserOk;
    CloseChange(s, s', i);
  }

  lemma CloseStep(s: State, i: nat, a: Action)
    requires Inv(s) && i < |s.threads| && s.threads[i].Close?
    ensures Inv(CloseNext(s, i, a))
  {
    hide Inv, CloseNext;
    match s.threads[i].cpc
    case CLockReq => LockReqStep(s, i, a);
    case COrPush => FlagStep(s, i, a);
    case COrPop => FlagStep(s, i, a);
    case COrClosed => FlagStep(s, i, a);
    case CStoreBarrier => StoreBarrierStep(s, i, a);
    case CStoreHead => StoreBarrierStep(s, i, a);
    case CCasBarrier => CasBarrierStep(s, i, a);
    case CCasHead => CasHeadStep(s, i, a);
    case COrHead => CasHeadStep(s, i, a);
    case CWakeOr => WakeOrStep(s, i, a);
    case CWakeLoad => WakeLoadStep(s, i, a);
    case CWakeAnd => WakeAndStep(s, i, a);
    case CWakeCall => WakeCallStep(s, i, a);
    case CUnlock => UnlockStep(s, i, a);
    case _ => CloseLoadStep(s, i, a);
  }
}
