/**
 What the callers of a channel see. Every step of a run belongs to the call that its thread made last; the items stored
 are the arguments of pushes, one for one; a call of close ends with the channel closing; and what a try operation
 answers was so when it looked.
 */
module ChannelTrace {
  import opened ChannelModel
  import opened ChannelInvariant
  import opened ChannelSteps
  import opened ChannelSleep
  import opened ChannelTheorems
  import opened ChannelDrain

  // ---- the call a thread is inside of ----

  /** Thread `i`, now at `l`, is inside of what this step of the schedule called for. */
  ghost predicate CalledBy(step: (nat, Action), i: nat, l: Local) {
    && step.0 == i
    && match step.1
       case StartPush(x) => l.Op? && l.side.PushSide? && !l.try && l.item == x
       case StartTryPush(x) => l.Op? && l.side.PushSide? && l.try && l.item == x
       case StartPop(_) => l.Op? && l.side.PopSide? && !l.try
       case StartTryPop(_) => l.Op? && l.side.PopSide? && l.try
       case StartClose(p) => l.Close? && l.pushClose == p
       case _ => false
  }

  /** The state after the first `k` steps. */
  function After(items: seq<Item>, n: nat, schedule: seq<(nat, Action)>, k: nat): (s: State)
    requires |items| > 0 && k <= |schedule|
    ensures WellShaped(s.sh) && |s.threads| == n
  {
    RunCapacity(Init(items, n), schedule[..k]);
    Run(Init(items, n), schedule[..k])
  }

  /** Thread `i` was idle before step `k` and is busy ever since. */
  ghost predicate BusySince(items: seq<Item>, n: nat, schedule: seq<(nat, Action)>, i: nat, k: nat)
    requires |items| > 0
  {
    && k < |schedule| && i < n && After(items, n, schedule, k).threads[i].Idle?
    && forall j | k < j <= |schedule| ::
         !After(items, n, schedule, j).threads[i].Idle?
  }

  lemma AfterMore(items: seq<Item>, n: nat, schedule: seq<(nat, Action)>, step: (nat, Action))
    requires |items| > 0
    ensures forall k | 0 <= k <= |schedule| :: After(items, n, schedule + [step], k) == After(items, n, schedule, k)
    ensures After(items, n, schedule, |schedule|) == Run(Init(items, n), schedule)
    ensures Run(Init(items, n), schedule + [step]) == Next(Run(Init(items, n), schedule), step.0, step.1)
    ensures |Run(Init(items, n), schedule).threads| == n
  {
    hide Next;
    forall k | 0 <= k <= |schedule| ensures After(items, n, schedule + [step], k) == After(items, n, schedule, k) {
      assert (schedule + [step])[..k] == schedule[..k];
    }
    assert schedule[..|schedule|] == schedule;
    assert (schedule + [step])[..|schedule|] == schedule;
    RunCapacity(Init(items, n), schedule);
  }

  /** A step of a busy thread ends its call or goes on with it. */
  ghost predicate SameCall(l: Local, l': Local) {
    || (l.Op? && l'.Op? && l'.side == l.side && l'.try == l.try && (l.side.PushSide? ==> l'.item == l.item))
    || (l.Close? && l'.Close? && l'.pushClose == l.pushClose)
  }

  lemma LoadKeepsCall(sh: Shared, l: Local, a: Action)
    requires WellShaped(sh) && l.Op?
    ensures AfterLoad(sh, l, a).Idle? || SameCall(l, AfterLoad(sh, l, a))
  {
    hide Slot, Want;
  }

  lemma OpKeepsCall(s: State, i: nat, a: Action)
    requires WellShaped(s.sh) && i < |s.threads| && s.threads[i].Op?
    ensures var l' := OpNext(s, i, a).threads[i]; l'.Idle? || SameCall(s.threads[i], l')
  {
    hide Slot, Want, AfterLoad;
    LoadKeepsCall(s.sh, s.threads[i], a);
  }

  lemma RangeKeepsCall(l: Local, second: bool, capacity: nat)
    requires l.Close?
    ensures EnterRange(l, second, capacity).pushClose == l.pushClose && AfterWake(l, capacity).pushClose == l.pushClose
  {
  }

  lemma LookKeepsCall(sh: Shared, l: Local)
    requires WellShaped(sh) && l.Close?
    ensures CloseAfterLoad(sh, l).Idle? || SameCall(l, CloseAfterLoad(sh, l))
  {
    hide Slot, AfterWake, EnterRange;
    RangeKeepsCall(l, false, sh.capacity);
  }

  lemma SameCallIs(l: Local, l': Local)
    requires l.Close?
    ensures SameCall(l, l') <==> l'.Close? && l'.pushClose == l.pushClose
  {
  }

  lemma LookMoves(s: State, i: nat, a: Action)
    requires WellShaped(s.sh) && i < |s.threads| && s.threads[i].Close? && OnlyLooks(s.threads[i].cpc)
    ensures CloseNext(s, i, a) == Goto(s, i, CloseAfterLoad(s.sh, s.threads[i]))
  {
    hide CloseAfterLoad, Slot;
  }

  lemma CloseKeepsCall(s: State, i: nat, a: Action)
    requires WellShaped(s.sh) && i < |s.threads| && s.threads[i].Close?
    ensures var l' := CloseNext(s, i, a).threads[i]; l'.Idle? || SameCall(s.threads[i], l')
  {
    hide CloseNext;
    if OnlyLooks(s.threads[i].cpc) {
      LookMoves(s, i, a);
      LookKeepsCall(s.sh, s.threads[i]);
    } else {
      ChangeKeepsCall(s, i, a);
    }
  }

  lemma ChangeKeepsCall(s: State, i: nat, a: Action)
    requires WellShaped(s.sh) && i < |s.threads| && s.threads[i].Close? && !OnlyLooks(s.threads[i].cpc)
    ensures var l' := CloseNext(s, i, a).threads[i]; l'.Idle? || SameCall(s.threads[i], l')
  {
    hide EnterRange, AfterWake, Slot, SameCall;
    var l := s.threads[i];
    SameCallIs(l, CloseNext(s, i, a).threads[i]);
    RangeKeepsCall(l, false, s.sh.capacity);
    RangeKeepsCall(l.(headEnd := l.head.ticket), false, s.sh.capacity);
    RangeKeepsCall(l.(headEnd := s.sh.head.ticket), false, s.sh.capacity);
  }

  lemma StepKeepsCall(s: State, i: nat, a: Action, j: nat)
    requires WellShaped(s.sh) && i < |s.threads| && j < |s.threads| && !s.threads[j].Idle?
    ensures var l' := Next(s, i, a).threads[j]; (i == j && l'.Idle?) || SameCall(s.threads[j], l')
  {
    hide OpNext, CloseNext;
    if i != j {
      Others(s, i, a, j);
    } else if s.threads[i].Op? {
      OpKeepsCall(s, i, a);
    } else {
      CloseKeepsCall(s, i, a);
    }
  }

  /** A busy thread is inside of the call it made when it was last idle, and an idle one that makes a call gets busy. */
  lemma {:induction false} BusyWithCall(items: seq<Item>, n: nat, schedule: seq<(nat, Action)>, i: nat) returns (k: nat)
    requires |items| > 0 && i < |Run(Init(items, n), schedule).threads| && !Run(Init(items, n), schedule).threads[i].Idle?
    ensures BusySince(items, n, schedule, i, k) && CalledBy(schedule[k], i, Run(Init(items, n), schedule).threads[i])
    decreases |schedule|
  {
    hide Next, After;
    if schedule == [] {
      assert false;
    } else {
      var before, step := schedule[..|schedule| - 1], schedule[|schedule| - 1];
      assert before + [step] == schedule;
      AfterMore(items, n, before, step);
      var u := Run(Init(items, n), before);
      if u.threads[i].Idle? {
        k := |before|;
        StartCalls(u, step.0, step.1, i);
      } else {
        k := BusyWithCall(items, n, before, i);
        if step.0 < |u.threads| { StepKeepsCall(u, step.0, step.1, i); } else { NobodyMoves(u, step.0, step.1); }
      }
      WholeRun(items, n, schedule);
    }
  }

  lemma WholeRun(items: seq<Item>, n: nat, schedule: seq<(nat, Action)>)
    requires |items| > 0
    ensures After(items, n, schedule, |schedule|) == Run(Init(items, n), schedule)
  {
    assert schedule[..|schedule|] == schedule;
  }

  lemma NobodyMoves(s: State, i: nat, a: Action)
    requires WellShaped(s.sh) && i >= |s.threads|
    ensures Next(s, i, a) == s
  {
  }

  /** Only its own call makes an idle thread busy. */
  lemma StartCalls(s: State, i: nat, a: Action, j: nat)
    requires WellShaped(s.sh) && j < |s.threads| && s.threads[j].Idle? && !Next(s, i, a).threads[j].Idle?
    ensures CalledBy((i, a), j, Next(s, i, a).threads[j])
  {
    hide OpNext, CloseNext;
    if i < |s.threads| && i != j { Others(s, i, a, j); }
  }

  ghost predicate IsCall(a: Action) {
    !a.Go? && !a.Spurious?
  }

  /** An idle thread that makes a call is busy with it. */
  lemma CallMakesBusy(s: State, i: nat, a: Action)
    requires WellShaped(s.sh) && i < |s.threads| && s.threads[i].Idle? && IsCall(a)
    ensures CalledBy((i, a), i, Next(s, i, a).threads[i]) && !Next(s, i, a).threads[i].Idle?
  {
  }

  // ---- items come from pushes, one for one ----

  /** This step called for a push of `x`, or for a pop, by thread `o`. */
  ghost predicate CallsFor(step: (nat, Action), d: Side, o: nat, x: Item) {
    && step.0 == o
    && if d.PushSide? then step.1 == StartPush(x) || step.1 == StartTryPush(x) else step.1.StartPop? || step.1.StartTryPop?
  }

  /** The call has recorded its item. */
  ghost predicate Transferred(l: Local, d: Side) {
    l.Op? && l.side == d && (l.pc.Exchange? || l.pc.Wake? || (l.pc.Done? && l.res.Ok?))
  }

  /** Thread `i` of `s` is about to record an item under its own ticket. */
  ghost predicate Records(s: State, i: nat, d: Side, t: nat) {
    && i < |s.threads| && s.threads[i].Op? && s.threads[i].side == d && s.threads[i].pc.Copy? && s.threads[i].word.ticket == t
    && t !in Log(s.h, d) && t in Owner(s.h, d) && Owner(s.h, d)[t] == i
  }

  lemma CopierRecords(s: State, i: nat)
    requires Safe(s) && i < |s.threads| && s.threads[i].Op? && s.threads[i].pc.Copy?
    ensures Records(s, i, s.threads[i].side, s.threads[i].word.ticket)
  {
    hide SharedOk, TicketsOk, CountsOk, SleepersOk, CloseAttended, CarryOk, PastOk, CloserOk, Slot, Want;
    assert ThreadOk(s.sh, s.h, i, s.threads[i]);
  }

  lemma LogOfOp(s: State, i: nat, a: Action, d: Side)
    requires WellShaped(s.sh) && i < |s.threads| && s.threads[i].Op?
    ensures var s', l := OpNext(s, i, a), s.threads[i];
      if l.pc.Copy? && l.side == d then
        && l.word.ticket in Log(s'.h, d) && Log(s'.h, d) == Log(s.h, d)[l.word.ticket := Log(s'.h, d)[l.word.ticket]]
        && (d.PushSide? ==> Log(s'.h, d)[l.word.ticket] == l.item) && Transferred(s'.threads[i], d)
      else Log(s'.h, d) == Log(s.h, d)
  {
    hide Slot, Want, AfterLoad;
  }

  lemma OwnerOfOp(s: State, i: nat, a: Action, d: Side, t: nat)
    requires WellShaped(s.sh) && i < |s.threads| && s.threads[i].Op? && t in Owner(s.h, d)
    requires t < Counter(s.sh, d).ticket
    ensures var s' := OpNext(s, i, a); t in Owner(s'.h, d) && Owner(s'.h, d)[t] == Owner(s.h, d)[t]
  {
    hide Slot, Want, AfterLoad;
  }

  lemma TransferredStays(s: State, i: nat, a: Action, d: Side)
    requires WellShaped(s.sh) && i < |s.threads| && Transferred(s.threads[i], d)
    ensures var l' := OpNext(s, i, a).threads[i]; l'.Idle? || Transferred(l', d)
  {
    hide Slot, Want;
  }

  ghost predicate SameRecords(h: History, h': History) {
    h'.stored == h.stored && h'.taken == h.taken && h'.pushOwner == h.pushOwner && h'.popOwner == h.popOwner
  }

  predicate WakesUp(pc: ClosePc) {
    pc.CWakeOr? || pc.CWakeAnd? || pc.CWakeCall?
  }

  predicate Publishes(pc: ClosePc) {
    pc.CCasBarrier? || pc.CCasHead? || pc.COrHead?
  }

  lemma RecordsOfPublish(s: State, i: nat, a: Action)
    requires WellShaped(s.sh) && i < |s.threads| && s.threads[i].Close? && Publishes(s.threads[i].cpc)
    ensures SameRecords(s.h, CloseNext(s, i, a).h)
  {
    hide EnterRange, AfterWake, Slot;
  }

  lemma RecordsOfFlag(s: State, i: nat, a: Action)
    requires WellShaped(s.sh) && i < |s.threads| && s.threads[i].Close?
    requires var pc := s.threads[i].cpc; !OnlyLooks(pc) && !WakesUp(pc) && !Publishes(pc)
    ensures SameRecords(s.h, CloseNext(s, i, a).h)
  {
    hide EnterRange, AfterWake, Slot;
  }

  lemma RecordsOfWake(s: State, i: nat, a: Action)
    requires WellShaped(s.sh) && i < |s.threads| && s.threads[i].Close? && WakesUp(s.threads[i].cpc)
    ensures SameRecords(s.h, CloseNext(s, i, a).h)
  {
    hide EnterRange, AfterWake, Slot;
  }

  lemma LogOfClose(s: State, i: nat, a: Action, d: Side)
    requires WellShaped(s.sh) && i < |s.threads| && s.threads[i].Close?
    ensures var s' := CloseNext(s, i, a); Log(s'.h, d) == Log(s.h, d) && Owner(s'.h, d) == Owner(s.h, d)
  {
    hide CloseNext;
    var pc := s.threads[i].cpc;
    if OnlyLooks(pc) {
      LookMoves(s, i, a);
    } else if WakesUp(pc) {
      RecordsOfWake(s, i, a);
    } else if Publishes(pc) {
      RecordsOfPublish(s, i, a);
    } else {
      RecordsOfFlag(s, i, a);
    }
  }

  lemma LoggedIsIssued(s: State, d: Side, t: nat)
    requires Safe(s) && t in Log(s.h, d)
    ensures t < Counter(s.sh, d).ticket
  {
    hide TicketsOk, CountsOk, SleepersOk, CloseAttended, ThreadOk, FlagsOk, BarriersOk, ItemsOk, NotesOk, Reached, IsDone;
  }

  /** How a step changes what is recorded on a side. */
  lemma LogStep(s: State, i: nat, a: Action, d: Side)
    requires Safe(s) && i < |s.threads|
    ensures var s', l := Next(s, i, a), s.threads[i];
      && (if l.Op? && l.pc.Copy? && l.side == d then
            && Records(s, i, d, l.word.ticket) && l.word.ticket in Log(s'.h, d)
            && Log(s'.h, d) == Log(s.h, d)[l.word.ticket := Log(s'.h, d)[l.word.ticket]]
            && (d.PushSide? ==> Log(s'.h, d)[l.word.ticket] == l.item) && Transferred(s'.threads[i], d)
            && l.word.ticket in Owner(s'.h, d) && Owner(s'.h, d)[l.word.ticket] == i
          else Log(s'.h, d) == Log(s.h, d))
      && (forall t: nat :: t in Log(s.h, d) && t in Owner(s.h, d) ==> t in Owner(s'.h, d) && Owner(s'.h, d)[t] == Owner(s.h, d)[t])
  {
    hide Safe, OpNext, CloseNext, Log, Owner, Counter, Transferred;
    SafeShape(s);
    var l := s.threads[i];
    if l.Op? {
      if l.pc.Copy? && l.side == d {
        CopierRecords(s, i);
        CopyKeepsOwner(s, i, a, d);
      }
      LogOfOp(s, i, a, d);
      forall t: nat | t in Log(s.h, d) && t in Owner(s.h, d)
        ensures t in Owner(Next(s, i, a).h, d) && Owner(Next(s, i, a).h, d)[t] == Owner(s.h, d)[t]
      {
        LoggedIsIssued(s, d, t);
        OwnerOfOp(s, i, a, d, t);
      }
    } else if l.Close? {
      LogOfClose(s, i, a, d);
    }
  }

  lemma CopyKeepsOwner(s: State, i: nat, a: Action, d: Side)
    requires WellShaped(s.sh) && i < |s.threads| && s.threads[i].Op? && s.threads[i].pc.Copy?
    ensures Owner(OpNext(s, i, a).h, d) == Owner(s.h, d)
  {
  }

  /** `m` gives for every ticket with a recorded item the step of the schedule that called for it. */
  ghost predicate FromCalls(schedule: seq<(nat, Action)>, h: History, d: Side, m: map<nat, nat>) {
    && m.Keys == Log(h, d).Keys
    && (forall t :: t in m ==>
          m[t] < |schedule| && t in Owner(h, d) && CallsFor(schedule[m[t]], d, Owner(h, d)[t], Log(h, d)[t]))
    && (forall t, u :: t in m && u in m && t != u ==> m[t] != m[u])
  }

  /** A thread still inside of such a call has recorded its item. */
  ghost predicate OncePerCall(items: seq<Item>, n: nat, schedule: seq<(nat, Action)>, d: Side, m: map<nat, nat>)
    requires |items| > 0
  {
    forall t: nat, i: nat :: t in m ==> OnceIn(items, n, schedule, d, m[t], i)
  }

  ghost predicate OnceIn(items: seq<Item>, n: nat, schedule: seq<(nat, Action)>, d: Side, k: nat, i: nat)
    requires |items| > 0
  {
    var s := Run(Init(items, n), schedule);
    InsideCall(items, n, schedule, i, k) ==> i < |s.threads| && Transferred(s.threads[i], d)
  }

  /** Thread `i` is still inside of the call made at step `k`. */
  ghost predicate InsideCall(items: seq<Item>, n: nat, schedule: seq<(nat, Action)>, i: nat, k: nat)
    requires |items| > 0
  {
    k < |schedule| && schedule[k].0 == i && BusySince(items, n, schedule, i, k)
  }

  ghost predicate Traced(items: seq<Item>, n: nat, schedule: seq<(nat, Action)>, d: Side, m: map<nat, nat>)
    requires |items| > 0
  {
    FromCalls(schedule, Run(Init(items, n), schedule).h, d, m) && OncePerCall(items, n, schedule, d, m)
  }

  lemma SameCalls(schedule: seq<(nat, Action)>, step: (nat, Action), h: History, h': History, d: Side, m: map<nat, nat>)
    requires FromCalls(schedule, h, d, m) && Log(h', d) == Log(h, d)
    requires forall t: nat :: t in Log(h, d) && t in Owner(h, d) ==> t in Owner(h', d) && Owner(h', d)[t] == Owner(h, d)[t]
    ensures FromCalls(schedule + [step], h', d, m)
  {
    hide Log, Owner, CallsFor;
    forall t | t in m ensures (schedule + [step])[m[t]] == schedule[m[t]] { }
  }

  lemma OneMoreCall(schedule: seq<(nat, Action)>, step: (nat, Action), h: History, h': History, d: Side, m: map<nat, nat>,
                    t: nat, k: nat, o: nat, x: Item)
    requires FromCalls(schedule, h, d, m) && t !in Log(h, d) && Log(h', d) == Log(h, d)[t := x]
    requires forall u: nat :: u in Log(h, d) && u in Owner(h, d) ==> u in Owner(h', d) && Owner(h', d)[u] == Owner(h, d)[u]
    requires t in Owner(h', d) && Owner(h', d)[t] == o && k < |schedule| && CallsFor(schedule[k], d, o, x)
    requires forall u :: u in m ==> m[u] != k
    ensures FromCalls(schedule + [step], h', d, m[t := k])
  {
    hide Log, Owner, CallsFor;
    var m' := m[t := k];
    assert m'.Keys == m.Keys + {t};
    forall u | u in m' ensures (schedule + [step])[m'[u]] == schedule[m'[u]] { }
  }

  lemma EarlierBusy(items: seq<Item>, n: nat, schedule: seq<(nat, Action)>, step: (nat, Action), i: nat, k: nat)
    requires |items| > 0 && BusySince(items, n, schedule + [step], i, k) && k < |schedule|
    ensures BusySince(items, n, schedule, i, k)
    ensures var s' := Run(Init(items, n), schedule + [step]); i < |s'.threads| && !s'.threads[i].Idle?
  {
    hide After;
    AfterMore(items, n, schedule, step);
    WholeRun(items, n, schedule + [step]);
    forall j | k < j <= |schedule|
      ensures !After(items, n, schedule, j).threads[i].Idle?
    {
      assert After(items, n, schedule + [step], j) == After(items, n, schedule, j);
    }
  }

  lemma TransferredGoesOn(s: State, i: nat, a: Action, d: Side, j: nat)
    requires WellShaped(s.sh) && i < |s.threads| && j < |s.threads| && Transferred(s.threads[j], d)
    ensures var l' := Next(s, i, a).threads[j]; l'.Idle? || Transferred(l', d)
  {
    hide OpNext, CloseNext;
    if i == j { TransferredStays(s, i, a, d); } else { Others(s, i, a, j); }
  }

  lemma OnceMore(items: seq<Item>, n: nat, schedule: seq<(nat, Action)>, step: (nat, Action), d: Side, k: nat, i: nat)
    requires |items| > 0 && OnceIn(items, n, schedule, d, k, i) && k < |schedule|
    ensures OnceIn(items, n, schedule + [step], d, k, i)
  {
    hide Run, Next, BusySince, Transferred, Init;
    if InsideCall(items, n, schedule + [step], i, k) {
      AfterMore(items, n, schedule, step);
      EarlierBusy(items, n, schedule, step, i, k);
      var s := Run(Init(items, n), schedule);
      assert i < |s.threads| && Transferred(s.threads[i], d);
      if step.0 < |s.threads| {
        TransferredGoesOn(s, step.0, step.1, d, i);
      } else {
        NobodyMoves(s, step.0, step.1);
      }
    }
  }

  lemma TracedSame(items: seq<Item>, n: nat, schedule: seq<(nat, Action)>, step: (nat, Action), d: Side, m: map<nat, nat>)
    requires |items| > 0 && Traced(items, n, schedule, d, m)
    requires FromCalls(schedule + [step], Run(Init(items, n), schedule + [step]).h, d, m)
    ensures Traced(items, n, schedule + [step], d, m)
  {
    hide Run, OnceIn, Init, Log, Owner, CallsFor;
    forall t: nat, i: nat | t in m ensures OnceIn(items, n, schedule + [step], d, m[t], i) {
      OnceMore(items, n, schedule, step, d, m[t], i);
    }
  }

  lemma TracedRecord(items: seq<Item>, n: nat, schedule: seq<(nat, Action)>, step: (nat, Action), d: Side, m: map<nat, nat>, t: nat, k: nat)
    requires |items| > 0 && Traced(items, n, schedule, d, m) && k < |schedule| && schedule[k].0 == step.0 && t !in m
    requires FromCalls(schedule + [step], Run(Init(items, n), schedule + [step]).h, d, m[t := k])
    requires var s' := Run(Init(items, n), schedule + [step]); step.0 < |s'.threads| && Transferred(s'.threads[step.0], d)
    ensures Traced(items, n, schedule + [step], d, m[t := k])
  {
    hide Run, BusySince, Transferred, Init, Log, Owner, CallsFor;
    var m' := m[t := k];
    forall u: nat, i: nat | u in m' ensures OnceIn(items, n, schedule + [step], d, m'[u], i) {
      if u != t { OnceMore(items, n, schedule, step, d, m[u], i); }
    }
  }

  lemma TracedStep(items: seq<Item>, n: nat, schedule: seq<(nat, Action)>, step: (nat, Action), d: Side, m: map<nat, nat>)
      returns (m': map<nat, nat>)
    requires |items| > 0 && Traced(items, n, schedule, d, m)
    ensures Traced(items, n, schedule + [step], d, m')
  {
    hide Run, Next, Log, Owner, BusySince, Transferred, Safe, Init, CallsFor, CalledBy, FromCalls, OncePerCall;
    AfterMore(items, n, schedule, step);
    EveryRunSafe(items, n, schedule);
    var s, s' := Run(Init(items, n), schedule), Run(Init(items, n), schedule + [step]);
    m' := m;
    if step.0 >= |s.threads| {
      NobodyMoves(s, step.0, step.1);
      SameCalls(schedule, step, s.h, s'.h, d, m);
      TracedSame(items, n, schedule, step, d, m);
    } else {
      LogStep(s, step.0, step.1, d);
      var l := s.threads[step.0];
      if l.Op? && l.pc.Copy? && l.side == d {
        var t := l.word.ticket;
        var k := Recording(items, n, schedule, step, d, m);
        m' := m[t := k];
        OneMoreCall(schedule, step, s.h, s'.h, d, m, t, k, step.0, Log(s'.h, d)[t]);
        TracedRecord(items, n, schedule, step, d, m, t, k);
      } else {
        SameCalls(schedule, step, s.h, s'.h, d, m);
        TracedSame(items, n, schedule, step, d, m);
      }
    }
  }

  /** The call of a thread about to record an item has not recorded one yet. */
  lemma Recording(items: seq<Item>, n: nat, schedule: seq<(nat, Action)>, step: (nat, Action), d: Side, m: map<nat, nat>)
      returns (k: nat)
    requires |items| > 0 && Traced(items, n, schedule, d, m) && step.0 < |Run(Init(items, n), schedule).threads|
    requires var l := Run(Init(items, n), schedule).threads[step.0]; l.Op? && l.pc.Copy? && l.side == d
    ensures k < |schedule| && schedule[k].0 == step.0 && forall u :: u in m ==> m[u] != k
    ensures var l := Run(Init(items, n), schedule).threads[step.0];
      forall x: Item :: (d.PushSide? ==> x == l.item) ==> CallsFor(schedule[k], d, step.0, x)
    ensures Run(Init(items, n), schedule).threads[step.0].word.ticket !in m
  {
    hide Run, Init, Log, Owner, BusySince;
    EveryRunSafe(items, n, schedule);
    var s := Run(Init(items, n), schedule);
    k := BusyWithCall(items, n, schedule, step.0);
    BusyIsSmall(items, n, schedule, step.0, k);
    CopyingIsNot(s.threads[step.0], d);
    forall u | u in m ensures m[u] != k {
      assert OnceIn(items, n, schedule, d, m[u], step.0);
    }
    CopierRecords(s, step.0);
  }

  lemma CopyingIsNot(l: Local, d: Side)
    requires l.Op? && l.pc.Copy?
    ensures !Transferred(l, d)
  {
  }

  lemma BusyIsSmall(items: seq<Item>, n: nat, schedule: seq<(nat, Action)>, i: nat, k: nat)
    requires |items| > 0 && BusySince(items, n, schedule, i, k)
    ensures k < |schedule|
  {
  }

  lemma TracedStart(items: seq<Item>, n: nat, d: Side)
    requires |items| > 0
    ensures Traced(items, n, [], d, map[])
  {
  }

  /** In every run each item stored is the argument of a push by the owner of its ticket, each item taken was taken by a
      pop of the owner of its ticket, and different tickets belong to different calls. */
  lemma {:induction false} RecordedByCalls(items: seq<Item>, n: nat, schedule: seq<(nat, Action)>, d: Side)
      returns (m: map<nat, nat>)
    requires |items| > 0
    ensures Traced(items, n, schedule, d, m)
    decreases |schedule|
  {
    hide Traced;
    if schedule == [] {
      m := map[];
      TracedStart(items, n, d);
    } else {
      var before, step := schedule[..|schedule| - 1], schedule[|schedule| - 1];
      m := RecordedByCalls(items, n, before, d);
      m := TracedStep(items, n, before, step, d, m);
      assert before + [step] == schedule;
    }
  }

  /** What a pop returns is the argument of one particular push. */
  lemma PopReturnsArgument(items: seq<Item>, n: nat, schedule: seq<(nat, Action)>, i: nat) returns (k: nat, o: nat)
    requires |items| > 0 && i < |Run(Init(items, n), schedule).threads|
    requires var l := Run(Init(items, n), schedule).threads[i]; l.Op? && l.pc.Done? && l.res.Ok?
    ensures k < |schedule| && CallsFor(schedule[k], PushSide, o, Run(Init(items, n), schedule).threads[i].item)
  {
    hide Run, Init, CallsFor;
    FifoAndExclusion(items, n, schedule);
    var m := RecordedByCalls(items, n, schedule, PushSide);
    var s := Run(Init(items, n), schedule);
    var t := s.threads[i].word.ticket;
    k, o := m[t], Owner(s.h, PushSide)[t];
  }

  // ---- a close closes ----

  /** A closer that is about to give the lock back knows that the channel is closing. */
  ghost predicate UnlocksClosing(s: State) {
    forall i: nat | i < |s.threads| && s.threads[i].Close? && s.threads[i].cpc.CUnlock? :: s.sh.closing.Any()
  }

  /** What a closer's step does to the flags and to its end. */
  ghost predicate ClosesOn(s: State, s': State, i: nat)
    requires i < |s.threads| == |s'.threads| && s.threads[i].Close?
  {
    var l' := s'.threads[i];
    && (s.sh.closing.Any() ==> s'.sh.closing.Any())
    && (l'.Close? && l'.cpc.CUnlock? ==> s'.sh.closing.Any())
    && (l'.Idle? ==> s.sh.closing.Any() || s.threads[i].cpc.CUnlock?) && !l'.Op?
  }

  lemma LookClosesOn(s: State, i: nat, a: Action)
    requires WellShaped(s.sh) && i < |s.threads| && s.threads[i].Close? && OnlyLooks(s.threads[i].cpc)
    ensures ClosesOn(s, Goto(s, i, CloseAfterLoad(s.sh, s.threads[i])), i)
  {
    hide AfterWake, Slot;
  }

  lemma PublishClosesOn(s: State, i: nat, a: Action)
    requires WellShaped(s.sh) && i < |s.threads| && s.threads[i].Close?
    requires Publishes(s.threads[i].cpc) || WakesUp(s.threads[i].cpc)
    ensures ClosesOn(s, CloseNext(s, i, a), i)
  {
    hide EnterRange, AfterWake, Slot;
  }

  lemma FlagClosesOn(s: State, i: nat, a: Action)
    requires WellShaped(s.sh) && i < |s.threads| && s.threads[i].Close?
    requires var pc := s.threads[i].cpc; !OnlyLooks(pc) && !WakesUp(pc) && !Publishes(pc)
    ensures ClosesOn(s, CloseNext(s, i, a), i)
  {
    hide EnterRange, AfterWake, Slot;
  }

  lemma ClosingOfClose(s: State, i: nat, a: Action)
    requires WellShaped(s.sh) && i < |s.threads| && s.threads[i].Close?
    ensures ClosesOn(s, CloseNext(s, i, a), i)
  {
    hide CloseNext, ClosesOn;
    var pc := s.threads[i].cpc;
    if OnlyLooks(pc) {
      LookMoves(s, i, a);
      LookClosesOn(s, i, a);
    } else if WakesUp(pc) || Publishes(pc) {
      PublishClosesOn(s, i, a);
    } else {
      FlagClosesOn(s, i, a);
    }
  }

  lemma ClosingOfOp(s: State, i: nat, a: Action)
    requires WellShaped(s.sh) && i < |s.threads| && s.threads[i].Op?
    ensures OpNext(s, i, a).sh.closing == s.sh.closing && !OpNext(s, i, a).threads[i].Close?
  {
    hide Slot, Want, AfterLoad;
    LoadKeepsCall(s.sh, s.threads[i], a);
  }

  lemma NextUnlocks(s: State, i: nat, a: Action)
    requires WellShaped(s.sh) && UnlocksClosing(s)
    ensures UnlocksClosing(Next(s, i, a)) && (s.sh.closing.Any() ==> Next(s, i, a).sh.closing.Any())
  {
    hide OpNext, CloseNext;
    if i < |s.threads| {
      if s.threads[i].Op? { ClosingOfOp(s, i, a); }
      if s.threads[i].Close? { ClosingOfClose(s, i, a); }
      forall j: nat | j < |s.threads| && j != i ensures AtMostWoken(s.threads[j], Next(s, i, a).threads[j]) { Others(s, i, a, j); }
    }
  }

  lemma {:induction false} RunUnlocks(items: seq<Item>, n: nat, schedule: seq<(nat, Action)>)
    requires |items| > 0
    ensures UnlocksClosing(Run(Init(items, n), schedule))
    decreases |schedule|
  {
    hide UnlocksClosing, Next;
    if schedule == [] {
      assert UnlocksClosing(Init(items, n)) by { InitUnlocks(items, n); }
    } else {
      RunUnlocks(items, n, schedule[..|schedule| - 1]);
      NextUnlocks(Run(Init(items, n), schedule[..|schedule| - 1]), schedule[|schedule| - 1].0, schedule[|schedule| - 1].1);
    }
  }

  lemma InitUnlocks(items: seq<Item>, n: nat)
    requires |items| > 0
    ensures UnlocksClosing(Init(items, n))
  {
  }

  /** A thread inside a close stays there until the channel is closing. */
  lemma CloserStays(s: State, x: nat, a: Action, i: nat)
    requires WellShaped(s.sh) && UnlocksClosing(s) && i < |s.threads| && s.threads[i].Close? && !s.sh.closing.Any()
    ensures Next(s, x, a).threads[i].Close?
  {
    hide OpNext, CloseNext;
    if x < |s.threads| {
      if x == i { ClosingOfClose(s, i, a); } else { Others(s, x, a, i); }
    }
  }

  lemma {:induction false} ClosingOrCloser(items: seq<Item>, n: nat, schedule: seq<(nat, Action)>, k: nat, i: nat, p: bool)
    requires |items| > 0 && k < |schedule| && i < n && schedule[k] == (i, StartClose(p))
    requires After(items, n, schedule, k).threads[i].Idle?
    ensures var s := Run(Init(items, n), schedule); s.sh.closing.Any() || (i < |s.threads| && s.threads[i].Close?)
    decreases |schedule|
  {
    hide Next, UnlocksClosing;
    var before, step := schedule[..|schedule| - 1], schedule[|schedule| - 1];
    assert before + [step] == schedule;
    AfterMore(items, n, before, step);
    var u := Run(Init(items, n), before);
    RunUnlocks(items, n, before);
    NextUnlocks(u, step.0, step.1);
    if k == |before| {
      CallMakesBusy(u, i, StartClose(p));
    } else {
      ClosingOrCloser(items, n, before, k, i, p);
      if !u.sh.closing.Any() { CloserStays(u, step.0, step.1, i); }
    }
  }

  lemma {:induction false} ClosingLasts(items: seq<Item>, n: nat, schedule: seq<(nat, Action)>, j: nat)
    requires |items| > 0 && j <= |schedule| && After(items, n, schedule, j).sh.closing.Any()
    ensures Run(Init(items, n), schedule).sh.closing.Any()
    decreases |schedule|
  {
    hide Next, UnlocksClosing;
    WholeRun(items, n, schedule);
    if j < |schedule| {
      var before, step := schedule[..|schedule| - 1], schedule[|schedule| - 1];
      assert before + [step] == schedule;
      AfterMore(items, n, before, step);
      ClosingLasts(items, n, before, j);
      RunUnlocks(items, n, before);
      NextUnlocks(Run(Init(items, n), before), step.0, step.1);
    }
  }

  /** In every run: once a call of close has returned, the channel is closing, for good. */
  lemma CloseCloses(items: seq<Item>, n: nat, schedule: seq<(nat, Action)>, k: nat, j: nat, i: nat, p: bool)
    requires |items| > 0 && k < j <= |schedule| && i < n && schedule[k] == (i, StartClose(p))
    requires After(items, n, schedule, k).threads[i].Idle? && After(items, n, schedule, j).threads[i].Idle?
    ensures Run(Init(items, n), schedule).sh.closing.Any()
  {
    hide Run;
    assert schedule[..j][..k] == schedule[..k];
    ClosingOrCloser(items, n, schedule[..j], k, i, p);
    ClosingLasts(items, n, schedule, j);
  }

  // ---- what a try operation answers ----

  predicate Early(pc: OpPc) {
    pc.LoadWord? || pc.LoadId?
  }

  /** One step of a try operation: what it has loaded it keeps, and it gives up only over what it sees. */
  ghost predicate Tries(sh: Shared, l: Local, l': Local)
    requires WellShaped(sh) && l.Op?
  {
    && l'.Op? && l'.try && l'.side == l.side
    && (l.pc.LoadWord? ==> l'.pc.LoadId? && l'.word == Counter(sh, l.side))
    && (!l.pc.LoadWord? ==> l'.word == l.word && !l'.pc.LoadWord?)
    && (l.pc.LoadId? ==> l'.pc.LoadClosing? && l'.curr == sh.ids[Slot(sh.capacity, l.word.ticket)])
    && (!Early(l.pc) ==> l'.curr == l.curr && !Early(l'.pc))
    && (l'.pc.Done? ==> !l'.res.Pending?)
    && (l'.pc.Done? && l'.res.Unavailable? ==> l.curr.phase != Want(sh.capacity, l.side, l.word.ticket))
    && (l'.pc.Done? && l'.res.LostRace? ==> l.pc.TryCas? && Counter(sh, l.side) != l.word)
  }

  lemma TryLoads(sh: Shared, l: Local, a: Action)
    requires WellShaped(sh) && l.Op? && l.try && PcOk(l) && OnlyLoads(l.pc) && !l.pc.Done?
    ensures Tries(sh, l, AfterLoad(sh, l, a))
  {
    hide Slot, Want;
  }

  lemma TryChanges(s: State, i: nat, a: Action)
    requires WellShaped(s.sh) && i < |s.threads| && s.threads[i].Op? && s.threads[i].try && PcOk(s.threads[i])
    requires !OnlyLoads(s.threads[i].pc)
    ensures Tries(s.sh, s.threads[i], OpNext(s, i, a).threads[i])
  {
    hide Slot, Want, AfterLoad;
  }

  lemma LoadMoves(s: State, i: nat, a: Action)
    requires WellShaped(s.sh) && i < |s.threads| && s.threads[i].Op? && OnlyLoads(s.threads[i].pc)
    ensures OpNext(s, i, a) == Goto(s, i, AfterLoad(s.sh, s.threads[i], a))
  {
    hide AfterLoad, Slot;
  }

  lemma TryStep(s: State, i: nat, a: Action)
    requires Safe(s) && i < |s.threads| && s.threads[i].Op? && s.threads[i].try
    ensures WellShaped(s.sh)
    ensures if s.threads[i].pc.Done? then Next(s, i, a).threads[i].Idle? else Tries(s.sh, s.threads[i], Next(s, i, a).threads[i])
  {
    hide Safe, OpNext, AfterLoad, Tries, PcOk;
    SafeShape(s);
    var l := s.threads[i];
    PcIsOk(s, i);
    if OnlyLoads(l.pc) {
      LoadMoves(s, i, a);
      if l.pc.Done? { DoneEnds(s.sh, l, a); } else { TryLoads(s.sh, l, a); }
    } else {
      TryChanges(s, i, a);
    }
  }

  lemma DoneEnds(sh: Shared, l: Local, a: Action)
    requires WellShaped(sh) && l.Op? && l.pc.Done?
    ensures AfterLoad(sh, l, a).Idle?
  {
  }

  lemma PcIsOk(s: State, i: nat)
    requires Safe(s) && i < |s.threads| && s.threads[i].Op?
    ensures PcOk(s.threads[i])
  {
    hide SharedOk, TicketsOk, CountsOk, SleepersOk, CloseAttended, CarryOk, PastOk, OwnOk, HoldOk, CloserOk;
    assert ThreadOk(s.sh, s.h, i, s.threads[i]);
  }

  /** When a try operation looked: the steps at which it loaded its counter and its slot id, and at which it found the
      counter moved. */
  datatype Looks = Looks(word: nat, id: nat, moved: nat)

  ghost predicate Looked(items: seq<Item>, n: nat, schedule: seq<(nat, Action)>, i: nat, k: nat, at: Looks)
    requires |items| > 0 && i < |Run(Init(items, n), schedule).threads| && Run(Init(items, n), schedule).threads[i].Op?
  {
    var l := Run(Init(items, n), schedule).threads[i];
    && (!l.pc.LoadWord? ==> k < at.word < |schedule| && Counter(After(items, n, schedule, at.word).sh, l.side) == l.word)
    && (!Early(l.pc) ==>
          && at.word < at.id < |schedule|
          && var sh := After(items, n, schedule, at.id).sh; sh.ids[Slot(sh.capacity, l.word.ticket)] == l.curr)
    && (l.pc.Done? && l.res.LostRace? ==>
          at.id < at.moved < |schedule| && Counter(After(items, n, schedule, at.moved).sh, l.side) != l.word)
    && (l.pc.Done? && l.res.Unavailable? ==> l.curr.phase != Want(|items|, l.side, l.word.ticket))
    && (l.pc.Done? ==> !l.res.Pending?)
  }

  /** A try operation that answers that its side is not available found its slot not ready when it looked, and one that
      answers that it lost a race found the counter different from the one it had loaded. */
  lemma {:induction false} TryLooked(items: seq<Item>, n: nat, schedule: seq<(nat, Action)>, i: nat)
      returns (k: nat, at: Looks)
    requires |items| > 0 && i < |Run(Init(items, n), schedule).threads|
    requires var l := Run(Init(items, n), schedule).threads[i]; l.Op? && l.try
    ensures BusySince(items, n, schedule, i, k) && Looked(items, n, schedule, i, k, at)
    decreases |schedule|
  {
    hide Next, After, Slot, Want, Counter, BusySince;
    if schedule == [] {
      assert false;
    } else {
      var before, step := schedule[..|schedule| - 1], schedule[|schedule| - 1];
      assert before + [step] == schedule;
      AfterMore(items, n, before, step);
      EveryRunSafe(items, n, before);
      var u := Run(Init(items, n), before);
      if u.threads[i].Idle? {
        k := BusyWithCall(items, n, schedule, i);
        at := Looks(0, 0, 0);
        FirstLook(u, step.0, step.1, i);
      } else {
        SameTry(u, step.0, step.1, i);
        k, at := TryLooked(items, n, before, i);
        BusyIsSmall(items, n, before, i, k);
        at := LookOn(items, n, before, step, i, k, at);
        LaterBusy(items, n, before, step, i, k);
      }
    }
  }

  lemma FirstLook(s: State, x: nat, a: Action, i: nat)
    requires WellShaped(s.sh) && i < |s.threads| && s.threads[i].Idle?
    ensures var l' := Next(s, x, a).threads[i]; l'.Op? && l'.try ==> l'.pc.LoadWord?
  {
    hide OpNext, CloseNext;
    if x < |s.threads| && x != i { Others(s, x, a, i); }
  }

  lemma SameTry(s: State, x: nat, a: Action, i: nat)
    requires WellShaped(s.sh) && i < |s.threads| && !s.threads[i].Idle?
    requires Next(s, x, a).threads[i].Op? && Next(s, x, a).threads[i].try
    ensures s.threads[i].Op? && s.threads[i].try
  {
    hide Next;
    if x < |s.threads| { StepKeepsCall(s, x, a, i); } else { NobodyMoves(s, x, a); }
  }

  lemma LaterBusy(items: seq<Item>, n: nat, schedule: seq<(nat, Action)>, step: (nat, Action), i: nat, k: nat)
    requires |items| > 0 && BusySince(items, n, schedule, i, k)
    requires i < |Run(Init(items, n), schedule + [step]).threads| && !Run(Init(items, n), schedule + [step]).threads[i].Idle?
    ensures BusySince(items, n, schedule + [step], i, k)
  {
    hide After, Run;
    AfterMore(items, n, schedule, step);
    WholeRun(items, n, schedule + [step]);
  }

  /** A thread inside a try operation moves only by its own steps. */
  lemma TryWaits(s: State, x: nat, a: Action, i: nat)
    requires Safe(s) && i < |s.threads| && s.threads[i].Op? && s.threads[i].try && x != i
    ensures WellShaped(s.sh) && Next(s, x, a).threads[i] == s.threads[i]
  {
    hide Safe, Next;
    SafeShape(s);
    PcIsOk(s, i);
    if x < |s.threads| { Others(s, x, a, i); } else { NobodyMoves(s, x, a); }
  }

  lemma LookOn(items: seq<Item>, n: nat, schedule: seq<(nat, Action)>, step: (nat, Action), i: nat, k: nat, at: Looks)
      returns (at': Looks)
    requires |items| > 0 && i < |Run(Init(items, n), schedule).threads| && k < |schedule|
    requires var l := Run(Init(items, n), schedule).threads[i]; l.Op? && l.try
    requires var s' := Run(Init(items, n), schedule + [step]); i < |s'.threads| && s'.threads[i].Op? && s'.threads[i].try
    requires Looked(items, n, schedule, i, k, at)
    ensures Looked(items, n, schedule + [step], i, k, at')
  {
    hide Run, Next, After, Slot, Want, Counter, Safe;
    AfterMore(items, n, schedule, step);
    EveryRunSafe(items, n, schedule);
    RunCapacity(Init(items, n), schedule);
    var s := Run(Init(items, n), schedule);
    var l, l' := s.threads[i], Run(Init(items, n), schedule + [step]).threads[i];
    at' := at;
    if step.0 != i {
      TryWaits(s, step.0, step.1, i);
    } else {
      TryStep(s, i, step.1);
      if l.pc.LoadWord? { at' := at'.(word := |schedule|); }
      if l.pc.LoadId? { at' := at'.(id := |schedule|); }
      if l.pc.TryCas? { at' := at'.(moved := |schedule|); }
    }
  }
}
