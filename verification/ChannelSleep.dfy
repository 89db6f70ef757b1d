/** Blocking waits: no wake-up is lost. */
module ChannelSleep {
  import opened ChannelModel
  import opened ChannelInvariant
  import opened ChannelSteps

  /** Thread `l` is about to wake the sleepers of slot `k`, or bound to do so. */
  ghost predicate Wakes(sh: Shared, l: Local, k: nat)
    requires WellShaped(sh)
  {
    || (l.Op? && l.pc.Wake? && Slot(sh.capacity, l.word.ticket) == k)
    || (l.Close? && (l.cpc.CWakeCall? || l.cpc.CWakeAnd?) && Slot(sh.capacity, l.cursor) == k)
    || (l.Close? && l.cpc.CWakeLoad? && Slot(sh.capacity, l.cursor) == k && sh.ids[k].waiting)
  }

  ghost predicate WakePending(s: State, k: nat)
    requires WellShaped(s.sh)
  {
    exists w: nat :: w < |s.threads| && Wakes(s.sh, s.threads[w], k)
  }

  /** The slot still has the exact value the thread went to sleep on. */
  ghost predicate SeesItsValue(sh: Shared, l: Local)
    requires WellShaped(sh) && l.Op?
  {
    sh.ids[Slot(sh.capacity, l.word.ticket)] == l.curr.(waiting := true)
  }

  ghost predicate SleepersOk(s: State)
    requires WellShaped(s.sh)
  {
    forall j: nat :: j < |s.threads| && s.threads[j].Op? && s.threads[j].pc.Asleep? ==>
      SeesItsValue(s.sh, s.threads[j]) || WakePending(s, Slot(s.sh.capacity, s.threads[j].word.ticket))
  }

  /** Steps that change no slot id and wake nobody. */
  lemma QuietSleepers(s: State, s': State, i: nat)
    requires WellShaped(s.sh) && WellShaped(s'.sh) && SleepersOk(s) && OthersKept(s, s', i)
    requires s'.sh.capacity == s.sh.capacity && s'.sh.ids == s.sh.ids
    requires forall k: nat :: Wakes(s.sh, s.threads[i], k) ==> Wakes(s'.sh, s'.threads[i], k)
    requires s'.threads[i].Op? && s'.threads[i].pc.Asleep? ==>
      s'.threads[i] == s.threads[i] || SeesItsValue(s'.sh, s'.threads[i])
    ensures SleepersOk(s')
  {
    hide Slot;
    forall k: nat | WakePending(s, k) ensures WakePending(s', k) {
      var w: nat :| w < |s.threads| && Wakes(s.sh, s.threads[w], k);
      assert Wakes(s'.sh, s'.threads[w], k);
    }
  }

  /** Thread `i` changes slot `k` and every sleeper there that loses sight of its value has a wake-up coming. */
  lemma SlotSleepers(s: State, s': State, i: nat, k: nat)
    requires WellShaped(s.sh) && WellShaped(s'.sh) && SleepersOk(s) && OthersKept(s, s', i)
    requires s'.sh.capacity == s.sh.capacity && k < s.sh.capacity
    requires forall m :: 0 <= m < s.sh.capacity && m != k ==> s'.sh.ids[m] == s.sh.ids[m]
    requires forall m: nat :: m != k ==> !Wakes(s.sh, s.threads[i], m)
    requires s'.sh.ids[k] != s.sh.ids[k] && s.sh.ids[k].waiting ==> Wakes(s'.sh, s'.threads[i], k)
    requires Wakes(s.sh, s.threads[i], k) ==> Wakes(s'.sh, s'.threads[i], k)
    requires !(s'.threads[i].Op? && s'.threads[i].pc.Asleep?)
    ensures SleepersOk(s')
  {
    hide Slot;
    forall m: nat | WakePending(s, m) ensures WakePending(s', m) {
      var w: nat :| w < |s.threads| && Wakes(s.sh, s.threads[w], m);
      if !Wakes(s'.sh, s'.threads[w], m) {
        assert Wakes(s'.sh, s'.threads[i], m);
      }
    }
    forall j: nat | j < |s'.threads| && s'.threads[j].Op? && s'.threads[j].pc.Asleep?
      ensures SeesItsValue(s'.sh, s'.threads[j]) || WakePending(s', Slot(s'.sh.capacity, s'.threads[j].word.ticket))
    {
      assert j != i && s'.threads[j] == s.threads[j];
      var m := Slot(s.sh.capacity, s.threads[j].word.ticket);
      if !WakePending(s, m) && m == k && s'.sh.ids[k] != s.sh.ids[k] {
        assert Wakes(s'.sh, s'.threads[i], k);
      }
    }
  }

  /** A wake on slot `k` leaves nobody asleep there. */
  lemma WakenSleepers(s: State, i: nat, k: nat, l: Local)
    requires WellShaped(s.sh) && SleepersOk(s) && i < |s.threads|
    requires forall m: nat :: Wakes(s.sh, s.threads[i], m) ==> m == k
    requires !(l.Op? && l.pc.Asleep?)
    ensures SleepersOk(Goto(s.(threads := WakeAll(s.threads, s.sh.capacity, k)), i, l))
  {
    var s' := Goto(s.(threads := WakeAll(s.threads, s.sh.capacity, k)), i, l);
    forall j: nat | j < |s'.threads| && s'.threads[j].Op? && s'.threads[j].pc.Asleep?
      ensures SeesItsValue(s'.sh, s'.threads[j]) || WakePending(s', Slot(s'.sh.capacity, s'.threads[j].word.ticket))
    {
      assert j != i && s'.threads[j] == s.threads[j];
      hide Slot;
      var m := Slot(s.sh.capacity, s.threads[j].word.ticket);
      assert m != k;
      if WakePending(s, m) {
        var w: nat :| w < |s.threads| && Wakes(s.sh, s.threads[w], m);
        assert w != i;
        assert Wakes(s'.sh, s'.threads[w], m);
      }
    }
  }

  /** An operation falls asleep only on the value it sees. */
  lemma SleepsOnValue(sh: Shared, l: Local, a: Action)
    requires WellShaped(sh) && l.Op?
    ensures var r := AfterLoad(sh, l, a); r.Op? && r.pc.Asleep? ==> r == l || SeesItsValue(sh, r)
  {
    hide Slot, Want;
  }

  predicate OnlyLoads(pc: OpPc) {
    !pc.Faa? && !pc.CountCancel? && !pc.SubTicket? && !pc.TryCas? && !pc.Copy? && !pc.Wake? && !pc.OrWaiting? && !pc.Exchange?
  }

  lemma QuietLoad(s: State, i: nat, a: Action)
    requires WellShaped(s.sh) && SleepersOk(s) && i < |s.threads| && s.threads[i].Op? && OnlyLoads(s.threads[i].pc)
    ensures SleepersOk(OpNext(s, i, a))
  {
    hide SleepersOk, Slot, Want, AfterLoad, SeesItsValue;
    SleepsOnValue(s.sh, s.threads[i], a);
    QuietSleepers(s, Goto(s, i, AfterLoad(s.sh, s.threads[i], a)), i);
  }

  lemma QuietChange(s: State, i: nat, a: Action)
    requires WellShaped(s.sh) && SleepersOk(s) && i < |s.threads| && s.threads[i].Op? && !OnlyLoads(s.threads[i].pc)
    requires !s.threads[i].pc.Wake? && !s.threads[i].pc.OrWaiting? && !s.threads[i].pc.Exchange?
    ensures SleepersOk(OpNext(s, i, a))
  {
    hide SleepersOk, Slot, Want, AfterLoad;
    QuietSleepers(s, OpNext(s, i, a), i);
  }

  lemma OpSleepers(s: State, i: nat, a: Action)
    requires WellShaped(s.sh) && SleepersOk(s) && i < |s.threads| && s.threads[i].Op?
    ensures SleepersOk(OpNext(s, i, a))
  {
    hide SleepersOk, Slot, Want;
    var l := s.threads[i];
    var k := Slot(s.sh.capacity, l.word.ticket);
    if l.pc.Wake? {
      WakenSleepers(s, i, k, l.(pc := Done, res := Ok));
    } else if l.pc.OrWaiting? || l.pc.Exchange? {
      SlotSleepers(s, OpNext(s, i, a), i, k);
    } else if OnlyLoads(l.pc) {
      QuietLoad(s, i, a);
    } else {
      QuietChange(s, i, a);
    }
  }

  predicate OnlyLooks(pc: ClosePc) {
    || pc.CIsClosed? || pc.CLockWait? || pc.CRecheck? || pc.CLoadTail? || pc.CLoadHead? || pc.CReloadTail?
    || pc.CLoadCancels? || pc.CLoadHead2? || pc.CWakeLoad?
  }

  lemma LookKeepsWakes(sh: Shared, l: Local, k: nat)
    requires WellShaped(sh) && l.Close? && OnlyLooks(l.cpc) && Wakes(sh, l, k)
    ensures Wakes(sh, CloseAfterLoad(sh, l), k)
  {
    hide Slot, AfterWake;
  }

  lemma QuietLook(s: State, i: nat, a: Action)
    requires WellShaped(s.sh) && SleepersOk(s) && i < |s.threads| && s.threads[i].Close? && OnlyLooks(s.threads[i].cpc)
    ensures SleepersOk(CloseNext(s, i, a))
  {
    hide SleepersOk, Slot, CloseAfterLoad, Wakes, WakePending;
    var l := s.threads[i];
    var s' := Goto(s, i, CloseAfterLoad(s.sh, l));
    forall k: nat | Wakes(s.sh, l, k) ensures Wakes(s'.sh, s'.threads[i], k) { LookKeepsWakes(s.sh, l, k); }
    NotAsleep(s.sh, l);
    QuietSleepers(s, s', i);
  }

  lemma NotAsleep(sh: Shared, l: Local)
    requires WellShaped(sh) && l.Close?
    ensures !CloseAfterLoad(sh, l).Op?
  {
    hide Slot, AfterWake;
  }

  lemma CloseSleepers(s: State, i: nat, a: Action)
    requires WellShaped(s.sh) && SleepersOk(s) && i < |s.threads| && s.threads[i].Close?
    ensures SleepersOk(CloseNext(s, i, a))
  {
    hide SleepersOk, Slot, EnterRange, AfterWake, CloseAfterLoad;
    var l := s.threads[i];
    var k := Slot(s.sh.capacity, l.cursor);
    if l.cpc.CWakeCall? {
      WakenSleepers(s, i, k, AfterWake(l, s.sh.capacity));
    } else if l.cpc.CWakeOr? || l.cpc.CWakeAnd? {
      SlotSleepers(s, CloseNext(s, i, a), i, k);
    } else if OnlyLooks(l.cpc) {
      QuietLook(s, i, a);
    } else {
      QuietSleepers(s, CloseNext(s, i, a), i);
    }
  }
}
