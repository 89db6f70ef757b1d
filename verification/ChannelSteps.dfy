/** Every step of every thread keeps the channel invariant. */
module ChannelSteps {
  import opened Arith
  import opened ChannelModel
  import opened ChannelInvariant

  // ---- tickets, slots and phases ----

  lemma TicketUnique(C: nat, d: Side, t: nat, d': Side, t': nat)
    requires C > 0 && Slot(C, t) == Slot(C, t') && Want(C, d, t) == Want(C, d', t')
    ensures d == d' && t == t'
  {
    DivMod(C, t);
    DivMod(C, t');
  }

  lemma WantShape(C: nat)
    requires C > 0
    ensures forall t: nat :: Want(C, PopSide, t) == Want(C, PushSide, t) + 1
    ensures forall t: nat :: Want(C, PushSide, t) % 2 == 0
  {
  }

  lemma LapBefore(C: nat, t: nat)
    requires C > 0 && t >= C
    ensures Slot(C, t - C) == Slot(C, t) && (t - C) / C == t / C - 1
  {
    DivMod(C, t);
    var q, r := t / C, t % C;
    assert t - C == C * (q - 1) + r;
    QuotientUnique(C, t - C, q - 1, r);
  }

  /** A push finds its slot ready only after the pop one lap earlier is done. */
  lemma ReadyPush(sh: Shared, t: nat)
    requires WellShaped(sh) && sh.ids[Slot(sh.capacity, t)].phase >= Want(sh.capacity, PushSide, t)
    ensures t < sh.capacity || IsDone(sh, PopSide, t - sh.capacity)
  {
    if t >= sh.capacity { LapBefore(sh.capacity, t); }
  }

  ghost predicate OthersKept(s: State, s': State, i: nat) {
    i < |s.threads| == |s'.threads| && forall j: nat :: j < |s.threads| && j != i ==> s'.threads[j] == s.threads[j]
  }

  // ---- steps that leave the shared fields alone ----

  lemma SameHolders(s: State, s': State)
    requires |s'.threads| == |s.threads| && s'.sh == s.sh
    requires forall j: nat :: j < |s.threads| ==>
               && (Holds(s'.threads[j]) <==> Holds(s.threads[j]))
               && (Holds(s.threads[j]) ==> s'.threads[j].side == s.threads[j].side && s'.threads[j].word == s.threads[j].word)
    ensures forall d :: PastHolders(s', d) == PastHolders(s, d)
  {
  }

  lemma Quiet(s: State, i: nat, l: Local)
    requires Inv(s) && i < |s.threads|
    requires Holds(l) <==> Holds(s.threads[i])
    requires Holds(l) ==> l.side == s.threads[i].side && l.word == s.threads[i].word
    requires (l.Op? && l.pc.SubTicket?) ==> s.threads[i] == l
    requires ThreadOk(s.sh, s.h, i, l)
    ensures Inv(Goto(s, i, l))
  {
    var s' := Goto(s, i, l);
    SameHolders(s, s');
    assert BackingOff(s') <= BackingOff(s);
    SubsetSize(BackingOff(s'), BackingOff(s));
    forall d, t: nat | HeldByOwner(s, d, t) ensures HeldByOwner(s', d, t) { }
  }

  lemma LoadKeepsOp(sh: Shared, h: History, i: nat, l: Local, a: Action)
    requires WellShaped(sh) && FlagsOk(sh) && NotesOk(sh, h) && l.Op? && OpOk(sh, h, i, l)
    requires l.pc.LoadWord? || l.pc.LoadId? || l.pc.LoadTail? || l.pc.LoadHead? || l.pc.FutexWait? || l.pc.Asleep?
    ensures OpOk(sh, h, i, AfterLoad(sh, l, a)) && (Holds(AfterLoad(sh, l, a)) <==> Holds(l))
  {
  }

  lemma LoadClosingKeepsOp(sh: Shared, h: History, i: nat, l: Local, a: Action)
    requires WellShaped(sh) && FlagsOk(sh) && NotesOk(sh, h) && l.Op? && OpOk(sh, h, i, l) && l.pc.LoadClosing?
    ensures OpOk(sh, h, i, AfterLoad(sh, l, a)) && (Holds(AfterLoad(sh, l, a)) <==> Holds(l))
  {
    hide Slot, Want;
  }

  lemma LoadBarrierKeepsOp(sh: Shared, h: History, i: nat, l: Local, a: Action)
    requires WellShaped(sh) && FlagsOk(sh) && NotesOk(sh, h) && l.Op? && OpOk(sh, h, i, l) && l.pc.LoadBarrier?
    ensures OpOk(sh, h, i, AfterLoad(sh, l, a)) && (Holds(AfterLoad(sh, l, a)) <==> Holds(l))
  {
    var l' := AfterLoad(sh, l, a);
    if l'.pc.Done? {
    } else if l'.pc.TryCas? {
    } else if l'.pc.Copy? {
    } else if l'.pc.CountCancel? {
    } else {
    }
  }

  lemma OpLoadStep(s: State, i: nat, a: Action)
    requires Inv(s) && i < |s.threads| && s.threads[i].Op?
    requires var pc := s.threads[i].pc;
      || pc.LoadWord? || pc.LoadId? || pc.LoadClosing? || pc.LoadTail? || pc.LoadHead? || pc.LoadBarrier?
      || pc.FutexWait? || pc.Asleep? || pc.Done?
    ensures Inv(OpNext(s, i, a))
  {
    hide OpOk, CloserOk, FlagsOk, NotesOk, LogsOk, BarriersOk, TicketsOk, CountsOk;
    var l := s.threads[i];
    assert ThreadOk(s.sh, s.h, i, l);
    if l.pc.LoadClosing? {
      LoadClosingKeepsOp(s.sh, s.h, i, l, a);
    } else if l.pc.LoadBarrier? {
      LoadBarrierKeepsOp(s.sh, s.h, i, l, a);
    } else if !l.pc.Done? {
      LoadKeepsOp(s.sh, s.h, i, l, a);
    }
    Quiet(s, i, AfterLoad(s.sh, l, a));
  }

  lemma StartStep(s: State, i: nat, a: Action)
    requires Inv(s) && i < |s.threads| && s.threads[i].Idle?
    ensures Inv(Goto(s, i, Start(a)))
  {
    hide OpOk, CloserOk, FlagsOk, NotesOk, LogsOk, BarriersOk, TicketsOk, CountsOk;
    Quiet(s, i, Start(a));
  }

  // ---- setting or clearing a flag bit of a slot id ----

  /** Slot `k` gets new flag bits but keeps its phase. */
  ghost predicate Reflagged(sh: Shared, sh': Shared, k: nat) {
    && WellShaped(sh) && k < sh.capacity
    && |sh'.ids| == |sh.ids| && sh' == SetId(sh, k, sh'.ids[k])
    && sh'.ids[k].phase == sh.ids[k].phase
    && (sh.ids[k].notify ==> sh'.ids[k].notify)
  }

  lemma ReflagOp(sh: Shared, sh': Shared, k: nat, h: History, j: nat, l: Local)
    requires Reflagged(sh, sh', k) && l.Op? && OpOk(sh, h, j, l)
    ensures OpOk(sh', h, j, l)
  {
  }

  lemma ReflagShared(sh: Shared, sh': Shared, k: nat, h: History)
    requires Reflagged(sh, sh', k) && WellShaped(sh) && SharedOk(sh, h) && (sh'.ids[k].notify ==> Shut(sh, PopSide))
    ensures WellShaped(sh') && SharedOk(sh', h)
  {
    hide Slot, Want;
    assert forall d, t: nat :: IsDone(sh', d, t) <==> IsDone(sh, d, t);
    assert forall d :: Limit(sh', d) == Limit(sh, d);
  }

  lemma Reflag(s: State, sh': Shared, k: nat)
    requires Inv(s) && Reflagged(s.sh, sh', k)
    requires sh'.ids[k].notify ==> Shut(s.sh, PopSide)
    ensures Inv(s.(sh := sh'))
  {
    hide Slot, Want, SharedOk, OpOk;
    var s' := s.(sh := sh');
    ReflagShared(s.sh, sh', k, s.h);
    forall j | 0 <= j < |s.threads| ensures ThreadOk(sh', s.h, j, s.threads[j]) {
      assert ThreadOk(s.sh, s.h, j, s.threads[j]);
      if s.threads[j].Op? { ReflagOp(s.sh, sh', k, s.h, j, s.threads[j]); }
    }
    assert forall d, t: nat :: IsDone(sh', d, t) <==> IsDone(s.sh, d, t);
    assert forall d :: Limit(sh', d) == Limit(s.sh, d);
    assert forall d :: PastHolders(s', d) == PastHolders(s, d);
    assert BackingOff(s') == BackingOff(s);
    assert forall d, t: nat :: HeldByOwner(s', d, t) <==> HeldByOwner(s, d, t);
  }

  lemma OrWaitingStep(s: State, i: nat, a: Action)
    requires Inv(s) && i < |s.threads| && s.threads[i].Op? && s.threads[i].pc.OrWaiting?
    ensures Inv(OpNext(s, i, a))
  {
    var l := s.threads[i];
    var k := Slot(s.sh.capacity, l.word.ticket);
    var sh' := SetId(s.sh, k, s.sh.ids[k].(waiting := true));
    Reflag(s, sh', k);
    assert ThreadOk(sh', s.h, i, l);
    hide TicketsOk, CountsOk, CloserOk, LogsOk, NotesOk;
    Quiet(s.(sh := sh'), i, l.(pc := FutexWait));
  }

  // ---- waking sleepers ----

  lemma WakeAllKeeps(s: State, k: nat)
    requires Inv(s)
    ensures Inv(s.(threads := WakeAll(s.threads, s.sh.capacity, k)))
  {
    hide SharedOk, CloserOk;
    var s' := s.(threads := WakeAll(s.threads, s.sh.capacity, k));
    forall j | 0 <= j < |s.threads| ensures ThreadOk(s.sh, s.h, j, s'.threads[j]) {
      assert ThreadOk(s.sh, s.h, j, s.threads[j]);
    }
    SameHolders(s, s');
    assert BackingOff(s') == BackingOff(s);
    assert forall d, t: nat :: HeldByOwner(s', d, t) <==> HeldByOwner(s, d, t);
  }

  lemma WakeStep(s: State, i: nat, a: Action)
    requires Inv(s) && i < |s.threads| && s.threads[i].Op? && s.threads[i].pc.Wake?
    ensures Inv(OpNext(s, i, a))
  {
    hide SharedOk, CloserOk, TicketsOk, CountsOk;
    var l := s.threads[i];
    var k := Slot(s.sh.capacity, l.word.ticket);
    WakeAllKeeps(s, k);
    var s1 := s.(threads := WakeAll(s.threads, s.sh.capacity, k));
    assert ThreadOk(s.sh, s.h, i, l) && s1.threads[i] == l;
    Quiet(s1, i, l.(pc := Done, res := Ok));
  }

  // ---- what other threads rely on ----

  /** No barrier is published in this step, and everything threads remember only moves forward. */
  ghost predicate Calm(sh: Shared, h: History, sh': Shared, h': History) {
    && WellShaped(sh) && WellShaped(sh') && sh'.capacity == sh.capacity
    && sh'.head.pushClosed == sh.head.pushClosed && sh'.tail.pushClosed == sh.tail.pushClosed
    && sh'.head.popClosed == sh.head.popClosed
    && (forall d :: Shut(sh, d) ==> Barrier(sh', d) == Barrier(sh, d) && ShutAt(h', d) == ShutAt(h, d))
    && (forall d :: Limit(sh, d) <= Limit(sh', d))
    && (forall k :: 0 <= k < sh.capacity ==>
          || sh'.ids[k].phase > sh.ids[k].phase
          || (sh'.ids[k].phase == sh.ids[k].phase && (sh.ids[k].notify ==> sh'.ids[k].notify)))
    && (forall d, k: nat :: k in Notified(h', d) && k !in Notified(h, d) ==> k < sh.capacity && sh'.ids[k].notify)
  }

  /** The step leaves alone the ticket and slot of a thread inside a push or pop. */
  ghost predicate Untouched(sh: Shared, h: History, sh': Shared, h': History, l: Local)
    requires l.Op? && WellShaped(sh) && WellShaped(sh') && sh.capacity == sh'.capacity
  {
    var t, d := l.word.ticket, l.side;
    var k := Slot(sh.capacity, t);
    && (Holds(l) && t in Owner(h, d) && !Past(sh, d, t) ==>
          && t in Owner(h', d) && Owner(h', d)[t] == Owner(h, d)[t]
          && (IsDone(sh', d, t) ==> IsDone(sh, d, t))
          && (t in Log(h', d) ==> t in Log(h, d)))
    && (l.pc.Copy? || l.pc.Exchange? ==> sh'.ids[k].phase == sh.ids[k].phase && sh'.items[k] == sh.items[k])
    && (t in Log(h, d) ==> t in Log(h', d) && Log(h', d)[t] == Log(h, d)[t])
  }

  lemma OpFrame(sh: Shared, h: History, sh': Shared, h': History, j: nat, l: Local)
    requires Calm(sh, h, sh', h') && l.Op? && OpOk(sh, h, j, l) && Untouched(sh, h, sh', h', l)
    ensures OpOk(sh', h', j, l)
  {
    assert HoldOk(sh', h', j, l) && OwnOk(sh', h', l);
    assert CarryOk(sh', l);
    assert Past(sh', l.side, l.word.ticket) <==> Past(sh, l.side, l.word.ticket);
    if Past(sh, l.side, l.word.ticket) && CarriesId(l) && Stale(sh, h, l) { assert Stale(sh', h', l); }
  }

  /** The fields a close works on are left alone, apart from counters moving forward. */
  ghost predicate CloseFieldsKept(sh: Shared, h: History, sh': Shared, h': History) {
    && sh'.closing == sh.closing && sh'.tailBarrier == sh.tailBarrier && sh'.headBarrier == sh.headBarrier
    && sh'.lockRequested == sh.lockRequested && sh'.lockCompleted == sh.lockCompleted && h'.lockOwner == h.lockOwner
    && (forall d :: !Shut(sh, d) ==> Counter(sh, d).ticket <= Counter(sh', d).ticket)
    && sh.tailCancels <= sh'.tailCancels
    && h'.shutTail == h.shutTail && h'.shutHead == h.shutHead
    && h'.notifiedTail == h.notifiedTail && h'.notifiedHead == h.notifiedHead
  }

  lemma CloserFrame(sh: Shared, h: History, sh': Shared, h': History, j: nat, l: Local)
    requires Calm(sh, h, sh', h') && CloseFieldsKept(sh, h, sh', h') && FlagsOk(sh)
    requires l.Close? && CloserOk(sh, h, j, l)
    ensures CloserOk(sh', h', j, l)
  {
    hide Covered;
    assert !Shut(sh, PushSide) ==> !Shut(sh, PopSide);
  }

  /** A step of a push or pop that keeps every part of the invariant on its own keeps the whole. */
  lemma OpChange(s: State, s': State, i: nat)
    requires Inv(s) && OthersKept(s, s', i)
    requires WellShaped(s'.sh) && Calm(s.sh, s.h, s'.sh, s'.h) && CloseFieldsKept(s.sh, s.h, s'.sh, s'.h)
    requires SharedOk(s'.sh, s'.h) && TicketsOk(s') && CountsOk(s') && ThreadOk(s'.sh, s'.h, i, s'.threads[i])
    requires forall j :: 0 <= j < |s.threads| && j != i && s.threads[j].Op? ==> Untouched(s.sh, s.h, s'.sh, s'.h, s.threads[j])
    ensures Inv(s')
  {
    hide OpOk, CloserOk, TicketsOk, CountsOk, Calm, CloseFieldsKept, Untouched, LogsOk, NotesOk, BarriersOk, FlagsOk;
    forall j | 0 <= j < |s.threads| ensures ThreadOk(s'.sh, s'.h, j, s'.threads[j]) {
      if j != i {
        assert s'.threads[j] == s.threads[j];
        assert ThreadOk(s.sh, s.h, j, s.threads[j]);
        if s.threads[j].Op? { OpFrame(s.sh, s.h, s'.sh, s'.h, j, s.threads[j]); }
        if s.threads[j].Close? { CloserFrame(s.sh, s.h, s'.sh, s'.h, j, s.threads[j]); }
      }
    }
  }

  // ---- counting ----

  lemma HoldersUpdate(s: State, s': State, i: nat, d: Side)
    requires OthersKept(s, s', i)
    requires Shut(s'.sh, d) == Shut(s.sh, d) && Barrier(s'.sh, d) == Barrier(s.sh, d)
    ensures var before := HoldsPast(s.sh, d, s.threads[i]);
            var after := HoldsPast(s'.sh, d, s'.threads[i]);
            |PastHolders(s', d)| == |PastHolders(s, d)| + (if after then 1 else 0) - (if before then 1 else 0)
  {
    hide Holds;
    assert forall j: nat :: j < |s.threads| && j != i ==> HoldsPast(s'.sh, d, s'.threads[j]) == HoldsPast(s.sh, d, s.threads[j]);
    assert PastHolders(s', d) - {i} == PastHolders(s, d) - {i};
    SizeWithout(PastHolders(s, d), i);
    SizeWithout(PastHolders(s', d), i);
  }

  lemma BackingOffUpdate(s: State, s': State, i: nat)
    requires OthersKept(s, s', i)
    ensures var before := BacksOff(s.threads[i]);
            var after := BacksOff(s'.threads[i]);
            |BackingOff(s')| == |BackingOff(s)| + (if after then 1 else 0) - (if before then 1 else 0)
  {
    hide BacksOff;
    assert forall j: nat :: j < |s.threads| && j != i ==> BacksOff(s'.threads[j]) == BacksOff(s.threads[j]);
    assert BackingOff(s') - {i} == BackingOff(s) - {i};
    SizeWithout(BackingOff(s), i);
    SizeWithout(BackingOff(s'), i);
  }

  // ---- handing out a ticket ----

  ghost function IssuedShared(sh: Shared, d: Side): Shared {
    WithCounter(sh, d, Counter(sh, d).(ticket := Counter(sh, d).ticket + 1))
  }

  ghost function IssuedHistory(sh: Shared, h: History, d: Side, i: nat): History {
    WithOwner(h, d, Counter(sh, d).ticket, i)
  }

  ghost function Issued(s: State, d: Side, i: nat, l: Local): State
    requires i < |s.threads|
  {
    State(IssuedShared(s.sh, d), IssuedHistory(s.sh, s.h, d, i), s.threads[i := l])
  }

  lemma IssueShared(sh: Shared, h: History, d: Side, i: nat)
    requires WellShaped(sh) && SharedOk(sh, h)
    ensures SharedOk(IssuedShared(sh, d), IssuedHistory(sh, h, d, i))
    ensures Calm(sh, h, IssuedShared(sh, d), IssuedHistory(sh, h, d, i))
    ensures CloseFieldsKept(sh, h, IssuedShared(sh, d), IssuedHistory(sh, h, d, i))
  {
    hide Slot, Want;
    var sh', h' := IssuedShared(sh, d), IssuedHistory(sh, h, d, i);
    assert forall e :: Limit(sh, e) <= Limit(sh', e) && Log(h', e) == Log(h, e) && Notified(h', e) == Notified(h, e);
    assert forall e, u: nat :: IsDone(sh', e, u) <==> IsDone(sh, e, u);
  }

  lemma IssueUntouched(sh: Shared, h: History, d: Side, i: nat, j: nat, l: Local)
    requires WellShaped(sh) && l.Op? && HoldOk(sh, h, j, l)
    ensures Untouched(sh, h, IssuedShared(sh, d), IssuedHistory(sh, h, d, i), l)
  {
  }

  lemma Issue(s: State, d: Side, i: nat, l: Local)
    requires Inv(s) && i < |s.threads| && !Holds(s.threads[i])
    requires HoldsTicket(l, d, Counter(s.sh, d).ticket) && !l.pc.SubTicket?
    requires OpOk(IssuedShared(s.sh, d), IssuedHistory(s.sh, s.h, d, i), i, l)
    ensures Inv(Issued(s, d, i, l))
  {
    var s' := Issued(s, d, i, l);
    IssueShared(s.sh, s.h, d, i);
    IssueTickets(s, d, i, l);
    IssueCounts(s, d, i, l);
    hide CloserOk, TicketsOk, CountsOk, SharedOk, Calm, CloseFieldsKept, HoldOk, OwnOk, CarryOk, PastOk, Untouched;
    forall j | 0 <= j < |s.threads| && j != i && s.threads[j].Op? ensures Untouched(s.sh, s.h, s'.sh, s'.h, s.threads[j]) {
      assert ThreadOk(s.sh, s.h, j, s.threads[j]);
      IssueUntouched(s.sh, s.h, d, i, j, s.threads[j]);
    }
    OpChange(s, s', i);
  }

  lemma IssueTickets(s: State, d: Side, i: nat, l: Local)
    requires WellShaped(s.sh) && TicketsOk(s) && i < |s.threads| && !Holds(s.threads[i])
    requires HoldsTicket(l, d, Counter(s.sh, d).ticket)
    ensures TicketsOk(Issued(s, d, i, l))
  {
    var t := Counter(s.sh, d).ticket;
    var s' := Issued(s, d, i, l);
    forall e, u: nat | u < Limit(s'.sh, e) ensures IsDone(s'.sh, e, u) || HeldByOwner(s', e, u) {
      if !(e == d && u == t) {
        assert u < Limit(s.sh, e);
        assert IsDone(s.sh, e, u) || HeldByOwner(s, e, u);
      }
    }
    assert forall e, u: nat :: IsDone(s'.sh, e, u) ==> IsDone(s.sh, e, u);
  }

  lemma IssueCounts(s: State, d: Side, i: nat, l: Local)
    requires CountsOk(s) && i < |s.threads| && !Holds(s.threads[i])
    requires HoldsTicket(l, d, Counter(s.sh, d).ticket) && !l.pc.SubTicket?
    ensures CountsOk(Issued(s, d, i, l))
  {
    var s' := Issued(s, d, i, l);
    forall e | Shut(s'.sh, e) ensures |PastHolders(s', e)| == Excess(s'.sh, e) {
      HoldersUpdate(s, s', i, e);
    }
    BackingOffUpdate(s, s', i);
  }

  lemma FaaOp(sh: Shared, h: History, i: nat, l: Local)
    requires WellShaped(sh) && l.Op? && l.pc.Faa? && OpOk(sh, h, i, l)
    requires !IsDone(sh, l.side, Counter(sh, l.side).ticket) && Counter(sh, l.side).ticket !in Log(h, l.side)
    ensures OpOk(IssuedShared(sh, l.side), IssuedHistory(sh, h, l.side, i), i, l.(pc := LoadId, word := Counter(sh, l.side)))
  {
  }

  lemma TryCasOp(sh: Shared, h: History, i: nat, l: Local)
    requires WellShaped(sh) && l.Op? && l.pc.TryCas? && OpOk(sh, h, i, l) && l.word == Counter(sh, l.side)
    requires !IsDone(sh, l.side, Counter(sh, l.side).ticket) && Counter(sh, l.side).ticket !in Log(h, l.side)
    ensures OpOk(IssuedShared(sh, l.side), IssuedHistory(sh, h, l.side, i), i, l.(pc := Copy))
  {
  }

  lemma FaaStep(s: State, i: nat, a: Action)
    requires Inv(s) && i < |s.threads| && s.threads[i].Op? && s.threads[i].pc.Faa?
    ensures Inv(OpNext(s, i, a))
  {
    hide HoldOk, OwnOk, CarryOk, PastOk, CloserOk, CountsOk, NotesOk;
    var l := s.threads[i];
    var d := l.side;
    assert ThreadOk(s.sh, s.h, i, l);
    assert !IsDone(s.sh, d, Counter(s.sh, d).ticket) && Counter(s.sh, d).ticket !in Log(s.h, d);
    hide TicketsOk, SharedOk;
    FaaOp(s.sh, s.h, i, l);
    Issue(s, d, i, l.(pc := LoadId, word := Counter(s.sh, l.side)));
  }

  lemma TryCasStep(s: State, i: nat, a: Action)
    requires Inv(s) && i < |s.threads| && s.threads[i].Op? && s.threads[i].pc.TryCas?
    ensures Inv(OpNext(s, i, a))
  {
    hide HoldOk, OwnOk, CarryOk, PastOk, CloserOk, CountsOk, NotesOk;
    var l := s.threads[i];
    var d := l.side;
    assert ThreadOk(s.sh, s.h, i, l);
    if Counter(s.sh, l.side) == l.word {
      assert !IsDone(s.sh, d, l.word.ticket) && l.word.ticket !in Log(s.h, d);
      hide TicketsOk, SharedOk;
      TryCasOp(s.sh, s.h, i, l);
      Issue(s, d, i, l.(pc := Copy));
    } else {
      hide TicketsOk, SharedOk;
      LostRaceOp(s.sh, s.h, i, l);
      Quiet(s, i, l.(pc := Done, res := LostRace));
    }
  }

  lemma LostRaceOp(sh: Shared, h: History, i: nat, l: Local)
    requires WellShaped(sh) && l.Op? && l.pc.TryCas? && OpOk(sh, h, i, l)
    ensures OpOk(sh, h, i, l.(pc := Done, res := LostRace))
  {
  }

  // ---- backing off ----

  /** No ticket is handed out or completed, and thread `i` gives up no ticket below its limit. */
  lemma KeepTickets(s: State, s': State, i: nat)
    requires WellShaped(s.sh) && WellShaped(s'.sh) && TicketsOk(s) && OthersKept(s, s', i)
    requires s'.sh.capacity == s.sh.capacity
    requires forall k :: 0 <= k < s.sh.capacity ==> s'.sh.ids[k].phase == s.sh.ids[k].phase
    requires forall d :: Limit(s'.sh, d) == Limit(s.sh, d) && Owner(s'.h, d) == Owner(s.h, d)
    requires forall d, t: nat :: HoldsTicket(s.threads[i], d, t) && t < Limit(s.sh, d) ==> HoldsTicket(s'.threads[i], d, t)
    ensures TicketsOk(s')
  {
    assert forall d, t: nat :: IsDone(s'.sh, d, t) <==> IsDone(s.sh, d, t);
    hide HoldsTicket, Limit, IsDone;
    forall d, t: nat | t < Limit(s'.sh, d) ensures IsDone(s'.sh, d, t) || HeldByOwner(s', d, t) {
      assert IsDone(s.sh, d, t) || HeldByOwner(s, d, t);
    }
  }

  ghost function CountedCancel(sh: Shared, d: Side): Shared {
    if d.PushSide? then sh.(tailCancels := sh.tailCancels + 1) else sh.(headCancels := sh.headCancels + 1)
  }

  lemma CountCancelShared(sh: Shared, h: History, l: Local, i: nat)
    requires WellShaped(sh) && SharedOk(sh, h) && l.Op? && l.pc.CountCancel? && OpOk(sh, h, i, l)
    ensures var sh' := CountedCancel(sh, l.side);
      && SharedOk(sh', h) && Calm(sh, h, sh', h) && CloseFieldsKept(sh, h, sh', h) && OpOk(sh', h, i, l.(pc := SubTicket))
      && forall d :: Limit(sh', d) == Limit(sh, d)
  {
    hide Covered;
    var sh' := CountedCancel(sh, l.side);
    assert forall e :: Limit(sh', e) == Limit(sh, e);
    assert forall e, u: nat :: IsDone(sh', e, u) <==> IsDone(sh, e, u);
  }

  lemma BackOffCounts(s: State, s': State, i: nat)
    requires CountsOk(s) && OthersKept(s, s', i) && s.threads[i].Op? && s'.h == s.h
    requires var l := s.threads[i];
      && Holds(l) && Past(s.sh, l.side, l.word.ticket)
      && (|| (l.pc.CountCancel? && s'.sh == CountedCancel(s.sh, l.side) && s'.threads[i] == l.(pc := SubTicket))
          || (&& l.pc.SubTicket? && Barrier(s.sh, l.side) < Counter(s.sh, l.side).ticket
              && s'.sh == Returned(s.sh, l.side) && s'.threads[i] == l.(pc := Done, res := Closed)))
    ensures CountsOk(s')
  {
    HoldersUpdate(s, s', i, PushSide);
    HoldersUpdate(s, s', i, PopSide);
    BackingOffUpdate(s, s', i);
    hide PastHolders, BackingOff;
  }

  lemma CountCancelStep(s: State, i: nat, a: Action)
    requires Inv(s) && i < |s.threads| && s.threads[i].Op? && s.threads[i].pc.CountCancel?
    ensures Inv(OpNext(s, i, a))
  {
    hide CloserOk, SharedOk, Calm, CloseFieldsKept, TicketsOk, CountsOk;
    var l := s.threads[i];
    var s' := State(CountedCancel(s.sh, l.side), s.h, s.threads[i := l.(pc := SubTicket)]);
    assert ThreadOk(s.sh, s.h, i, l);
    CountCancelShared(s.sh, s.h, l, i);
    BackOffCounts(s, s', i);
    KeepTickets(s, s', i);
    forall j | 0 <= j < |s.threads| && j != i && s.threads[j].Op? ensures Untouched(s.sh, s.h, s'.sh, s'.h, s.threads[j]) { }
    hide OpOk, Untouched;
    OpChange(s, s', i);
  }

  ghost function Returned(sh: Shared, d: Side): Shared
    requires Counter(sh, d).ticket > 0
  {
    WithCounter(sh, d, Counter(sh, d).(ticket := Counter(sh, d).ticket - 1))
  }

  lemma ReturnShared(sh: Shared, h: History, i: nat, l: Local)
    requires WellShaped(sh) && SharedOk(sh, h) && l.Op? && l.pc.SubTicket? && OpOk(sh, h, i, l)
    requires Barrier(sh, l.side) < Counter(sh, l.side).ticket
    ensures var sh' := Returned(sh, l.side);
      && SharedOk(sh', h) && Calm(sh, h, sh', h) && CloseFieldsKept(sh, h, sh', h)
      && OpOk(sh', h, i, l.(pc := Done, res := Closed))
      && forall d :: Limit(sh', d) == Limit(sh, d)
  {
    hide Covered;
    var sh' := Returned(sh, l.side);
    assert forall e :: Limit(sh', e) == Limit(sh, e);
    assert forall e, u: nat :: IsDone(sh', e, u) <==> IsDone(sh, e, u);
  }

  lemma SubTicketStep(s: State, i: nat, a: Action)
    requires Inv(s) && i < |s.threads| && s.threads[i].Op? && s.threads[i].pc.SubTicket?
    ensures Inv(OpNext(s, i, a))
  {
    hide CloserOk, SharedOk, Calm, CloseFieldsKept, TicketsOk;
    var l := s.threads[i];
    assert ThreadOk(s.sh, s.h, i, l);
    assert i in PastHolders(s, l.side);
    assert Barrier(s.sh, l.side) < Counter(s.sh, l.side).ticket;
    var s' := State(Returned(s.sh, l.side), s.h, s.threads[i := l.(pc := Done, res := Closed)]);
    hide CountsOk;
    ReturnShared(s.sh, s.h, i, l);
    BackOffCounts(s, s', i);
    KeepTickets(s, s', i);
    forall j | 0 <= j < |s.threads| && j != i && s.threads[j].Op? ensures Untouched(s.sh, s.h, s'.sh, s'.h, s.threads[j]) { }
    hide OpOk, Untouched;
    OpChange(s, s', i);
  }

  // ---- storing, taking and handing over an item ----

  /** Two threads past their id checks own different slots. */
  lemma OwnersApart(sh: Shared, h: History, i: nat, l: Local, j: nat, m: Local)
    requires WellShaped(sh) && l.Op? && m.Op? && OpOk(sh, h, i, l) && OpOk(sh, h, j, m) && i != j
    requires (l.pc.Copy? || l.pc.Exchange?) && (m.pc.Copy? || m.pc.Exchange?)
    ensures Slot(sh.capacity, l.word.ticket) != Slot(sh.capacity, m.word.ticket)
  {
    hide CarryOk, PastOk;
    if Slot(sh.capacity, l.word.ticket) == Slot(sh.capacity, m.word.ticket) {
      TicketUnique(sh.capacity, l.side, l.word.ticket, m.side, m.word.ticket);
    }
  }

  ghost function CopiedShared(sh: Shared, l: Local): Shared
    requires WellShaped(sh) && l.Op?
  {
    if l.side.PushSide? then sh.(items := sh.items[Slot(sh.capacity, l.word.ticket) := l.item]) else sh
  }

  ghost function CopiedItem(sh: Shared, l: Local): Item
    requires WellShaped(sh) && l.Op?
  {
    if l.side.PushSide? then l.item else sh.items[Slot(sh.capacity, l.word.ticket)]
  }

  ghost function CopiedHistory(sh: Shared, h: History, l: Local): History
    requires WellShaped(sh) && l.Op?
  {
    if l.side.PushSide? then h.(stored := h.stored[l.word.ticket := l.item])
    else h.(taken := h.taken[l.word.ticket := CopiedItem(sh, l)])
  }

  lemma CopyOp(sh: Shared, h: History, i: nat, l: Local)
    requires WellShaped(sh) && l.Op? && l.pc.Copy? && OpOk(sh, h, i, l)
    ensures OpOk(CopiedShared(sh, l), CopiedHistory(sh, h, l), i, l.(pc := Exchange, item := CopiedItem(sh, l)))
    ensures Calm(sh, h, CopiedShared(sh, l), CopiedHistory(sh, h, l))
    ensures CloseFieldsKept(sh, h, CopiedShared(sh, l), CopiedHistory(sh, h, l))
  {
    assert forall e :: Notified(CopiedHistory(sh, h, l), e) == Notified(h, e);
  }

  lemma CopyUntouched(sh: Shared, h: History, i: nat, l: Local, j: nat, m: Local)
    requires WellShaped(sh) && l.Op? && l.pc.Copy? && OpOk(sh, h, i, l)
    requires m.Op? && OpOk(sh, h, j, m) && i != j
    ensures Untouched(sh, h, CopiedShared(sh, l), CopiedHistory(sh, h, l), m)
  {
    if m.pc.Copy? || m.pc.Exchange? { OwnersApart(sh, h, i, l, j, m); }
    hide CarryOk, PastOk, OwnOk;
  }

  lemma CopyKeepsPhases(sh: Shared, l: Local)
    requires WellShaped(sh) && l.Op?
    ensures WellShaped(CopiedShared(sh, l)) && forall e :: Limit(CopiedShared(sh, l), e) == Limit(sh, e)
    ensures forall e, u: nat :: IsDone(CopiedShared(sh, l), e, u) <==> IsDone(sh, e, u)
    ensures forall e, u: nat :: Reached(CopiedShared(sh, l), e, u) <==> Reached(sh, e, u)
  {
    hide Slot, Want;
  }

  /** A pop that copies its item finds the push of its ticket done. */
  lemma CopyFindsPush(sh: Shared, l: Local)
    requires WellShaped(sh) && l.Op? && sh.ids[Slot(sh.capacity, l.word.ticket)].phase == Want(sh.capacity, l.side, l.word.ticket)
    ensures Reached(sh, l.side, l.word.ticket) && (l.side.PopSide? ==> IsDone(sh, PushSide, l.word.ticket))
  {
    WantShape(sh.capacity);
  }

  lemma CopyLogs(sh: Shared, h: History, l: Local)
    requires WellShaped(sh) && LogsOk(sh, h) && ItemsOk(sh, h) && l.Op?
    requires l.word.ticket < Limit(sh, l.side) && !IsDone(sh, l.side, l.word.ticket)
    requires sh.ids[Slot(sh.capacity, l.word.ticket)].phase == Want(sh.capacity, l.side, l.word.ticket)
    requires l.word.ticket !in Log(h, l.side)
    ensures LogsOk(CopiedShared(sh, l), CopiedHistory(sh, h, l))
  {
    hide Slot, Want, Limit, IsDone, Reached, CopiedShared;
    CopyKeepsPhases(sh, l);
    CopyFindsPush(sh, l);
    var sh', h' := CopiedShared(sh, l), CopiedHistory(sh, h, l);
    forall d, t: nat | t in Log(h', d) ensures t < Limit(sh', d) && Reached(sh', d, t) {
      assert t in Log(h, d) || (d == l.side && t == l.word.ticket);
    }
  }

  lemma CopyItem(sh: Shared, h: History, l: Local, u: nat)
    requires WellShaped(sh) && ItemsOk(sh, h) && l.Op? && !IsDone(sh, l.side, l.word.ticket)
    requires sh.ids[Slot(sh.capacity, l.word.ticket)].phase == Want(sh.capacity, l.side, l.word.ticket)
    requires IsDone(sh, PushSide, u) && !IsDone(sh, PopSide, u)
    ensures var h' := CopiedHistory(sh, h, l); u in h'.stored && CopiedShared(sh, l).items[Slot(sh.capacity, u)] == h'.stored[u]
  {
    hide Slot, Want;
    WantAt(sh.capacity, u);
    WantAt(sh.capacity, l.word.ticket);
  }

  lemma WantAt(C: nat, t: nat)
    requires C > 0
    ensures Want(C, PopSide, t) == Want(C, PushSide, t) + 1 && Want(C, PushSide, t) % 2 == 0
  {
  }

  lemma CopyItems(sh: Shared, h: History, l: Local)
    requires WellShaped(sh) && ItemsOk(sh, h) && l.Op? && !IsDone(sh, l.side, l.word.ticket)
    requires sh.ids[Slot(sh.capacity, l.word.ticket)].phase == Want(sh.capacity, l.side, l.word.ticket)
    ensures ItemsOk(CopiedShared(sh, l), CopiedHistory(sh, h, l))
  {
    hide Slot, Want, IsDone, CopiedHistory;
    CopyKeepsPhases(sh, l);
    var sh', h' := CopiedShared(sh, l), CopiedHistory(sh, h, l);
    forall u: nat | IsDone(sh', PushSide, u) && !IsDone(sh', PopSide, u)
      ensures u in h'.stored && sh'.items[Slot(sh.capacity, u)] == h'.stored[u]
    {
      CopyItem(sh, h, l, u);
    }
  }

  lemma CopyShared(sh: Shared, h: History, i: nat, l: Local)
    requires WellShaped(sh) && SharedOk(sh, h) && l.Op? && l.pc.Copy? && OpOk(sh, h, i, l)
    ensures SharedOk(CopiedShared(sh, l), CopiedHistory(sh, h, l))
  {
    CopyLogs(sh, h, l);
    CopyItems(sh, h, l);
    hide CarryOk, PastOk, HoldOk, OwnOk, Covered, LogsOk, ItemsOk;
    assert forall e :: Notified(CopiedHistory(sh, h, l), e) == Notified(h, e);
  }

  lemma CopyStep(s: State, i: nat, a: Action)
    requires Inv(s) && i < |s.threads| && s.threads[i].Op? && s.threads[i].pc.Copy?
    ensures Inv(OpNext(s, i, a))
  {
    hide CloserOk, SharedOk, Calm, CloseFieldsKept, TicketsOk, CountsOk, OpOk, Untouched;
    var l := s.threads[i];
    var l' := l.(pc := Exchange, item := CopiedItem(s.sh, l));
    var s' := State(CopiedShared(s.sh, l), CopiedHistory(s.sh, s.h, l), s.threads[i := l']);
    assert ThreadOk(s.sh, s.h, i, l);
    CopyShared(s.sh, s.h, i, l);
    CopyOp(s.sh, s.h, i, l);
    KeepTickets(s, s', i);
    forall j | 0 <= j < |s.threads| && j != i && s.threads[j].Op? ensures Untouched(s.sh, s.h, s'.sh, s'.h, s.threads[j]) {
      assert ThreadOk(s.sh, s.h, j, s.threads[j]);
      CopyUntouched(s.sh, s.h, i, l, j, s.threads[j]);
    }
    SameCounts(s, s', i);
    OpChange(s, s', i);
  }

  lemma SameCounts(s: State, s': State, i: nat)
    requires CountsOk(s) && OthersKept(s, s', i)
    requires forall d :: Shut(s'.sh, d) == Shut(s.sh, d) && Counter(s'.sh, d) == Counter(s.sh, d)
    requires forall d :: Shut(s.sh, d) ==> Barrier(s'.sh, d) == Barrier(s.sh, d)
    requires s'.sh.tailCancels == s.sh.tailCancels && s'.h.shutTail == s.h.shutTail
    requires forall d :: HoldsPast(s'.sh, d, s'.threads[i]) == HoldsPast(s.sh, d, s.threads[i])
    requires BacksOff(s'.threads[i]) == BacksOff(s.threads[i])
    ensures CountsOk(s')
  {
    hide HoldsPast, BacksOff;
    forall d | Shut(s.sh, d) ensures |PastHolders(s', d)| == |PastHolders(s, d)| { HoldersUpdate(s, s', i, d); }
    BackingOffUpdate(s, s', i);
  }

  ghost function Exchanged(sh: Shared, d: Side, t: nat): Shared
    requires WellShaped(sh)
  {
    SetId(sh, Slot(sh.capacity, t), Id(Want(sh.capacity, d, t) + 1, false, false))
  }

  /** Advancing a slot's id completes exactly the operation that owned it. */
  lemma ExchangeDone(sh: Shared, d: Side, t: nat, e: Side, u: nat)
    requires WellShaped(sh) && sh.ids[Slot(sh.capacity, t)].phase == Want(sh.capacity, d, t)
    ensures IsDone(Exchanged(sh, d, t), e, u) <==> IsDone(sh, e, u) || (e == d && u == t)
  {
    var C := sh.capacity;
    if Slot(C, u) == Slot(C, t) && Want(C, e, u) == Want(C, d, t) {
      TicketUnique(C, e, u, d, t);
    }
    hide Want, Slot;
  }

  lemma ExchangeShared(sh: Shared, h: History, d: Side, t: nat)
    requires WellShaped(sh) && SharedOk(sh, h) && sh.ids[Slot(sh.capacity, t)].phase == Want(sh.capacity, d, t)
    requires t < Limit(sh, d) && t in Log(h, d) && (d.PushSide? ==> sh.items[Slot(sh.capacity, t)] == h.stored[t])
    ensures SharedOk(Exchanged(sh, d, t), h)
  {
    var sh' := Exchanged(sh, d, t);
    assert forall e :: Limit(sh', e) == Limit(sh, e);
    forall e, u: nat ensures IsDone(sh', e, u) <==> IsDone(sh, e, u) || (e == d && u == t) {
      ExchangeDone(sh, d, t, e, u);
    }
    hide Limit, IsDone, Slot, Want, Covered;
    assert LogsOk(sh', h);
    assert ItemsOk(sh', h);
  }

  lemma ExchangeCalm(sh: Shared, h: History, i: nat, l: Local)
    requires WellShaped(sh) && l.Op? && l.pc.Exchange? && OpOk(sh, h, i, l)
    ensures var sh' := Exchanged(sh, l.side, l.word.ticket);
      && Calm(sh, h, sh', h) && CloseFieldsKept(sh, h, sh', h)
      && OpOk(sh', h, i, l.(pc := Wake)) && OpOk(sh', h, i, l.(pc := Done, res := Ok))
  {
    hide Slot, Want;
  }

  lemma ExchangeUntouched(sh: Shared, h: History, i: nat, l: Local, j: nat, m: Local)
    requires WellShaped(sh) && l.Op? && l.pc.Exchange? && OpOk(sh, h, i, l)
    requires m.Op? && OpOk(sh, h, j, m) && i != j
    ensures Untouched(sh, h, Exchanged(sh, l.side, l.word.ticket), h, m)
  {
    ExchangeDone(sh, l.side, l.word.ticket, m.side, m.word.ticket);
    if m.pc.Copy? || m.pc.Exchange? { OwnersApart(sh, h, i, l, j, m); }
    hide CarryOk, PastOk, Slot, Want;
  }

  lemma ExchangeTickets(s: State, s': State, i: nat, l: Local)
    requires WellShaped(s.sh) && TicketsOk(s) && OthersKept(s, s', i) && s.threads[i] == l && l.Op?
    requires l.word.ticket < Limit(s.sh, l.side)
    requires s.sh.ids[Slot(s.sh.capacity, l.word.ticket)].phase == Want(s.sh.capacity, l.side, l.word.ticket)
    requires s'.sh == Exchanged(s.sh, l.side, l.word.ticket) && s'.h == s.h
    ensures TicketsOk(s')
  {
    assert forall e :: Limit(s'.sh, e) == Limit(s.sh, e);
    forall e, u: nat ensures IsDone(s'.sh, e, u) <==> IsDone(s.sh, e, u) || (e == l.side && u == l.word.ticket) {
      ExchangeDone(s.sh, l.side, l.word.ticket, e, u);
    }
    hide Limit, IsDone, Slot, Want, Holds;
    forall e, u: nat | u < Limit(s'.sh, e) ensures IsDone(s'.sh, e, u) || HeldByOwner(s', e, u) {
      assert IsDone(s.sh, e, u) || HeldByOwner(s, e, u);
    }
  }

  lemma ExchangeStep(s: State, i: nat, a: Action)
    requires Inv(s) && i < |s.threads| && s.threads[i].Op? && s.threads[i].pc.Exchange?
    ensures Inv(OpNext(s, i, a))
  {
    hide CloserOk, SharedOk, Calm, CloseFieldsKept, TicketsOk, CountsOk, CarryOk, PastOk, Untouched;
    var l := s.threads[i];
    var s' := OpNext(s, i, a);
    assert ThreadOk(s.sh, s.h, i, l);
    ExchangeShared(s.sh, s.h, l.side, l.word.ticket);
    ExchangeCalm(s.sh, s.h, i, l);
    ExchangeTickets(s, s', i, l);
    forall j | 0 <= j < |s.threads| && j != i && s.threads[j].Op? ensures Untouched(s.sh, s.h, s'.sh, s'.h, s.threads[j]) {
      assert ThreadOk(s.sh, s.h, j, s.threads[j]);
      ExchangeUntouched(s.sh, s.h, i, l, j, s.threads[j]);
    }
    SameCounts(s, s', i);
    hide OpOk;
    OpChange(s, s', i);
  }

  lemma OpStep(s: State, i: nat, a: Action)
    requires Inv(s) && i < |s.threads| && s.threads[i].Op?
    ensures Inv(OpNext(s, i, a))
  {
    hide Inv, OpNext;
    match s.threads[i].pc
    case Faa => FaaStep(s, i, a);
    case CountCancel => CountCancelStep(s, i, a);
    case SubTicket => SubTicketStep(s, i, a);
    case OrWaiting => OrWaitingStep(s, i, a);
    case TryCas => TryCasStep(s, i, a);
    case Copy => CopyStep(s, i, a);
    case Exchange => ExchangeStep(s, i, a);
    case Wake => WakeStep(s, i, a);
    case _ => OpLoadStep(s, i, a);
  }
}
