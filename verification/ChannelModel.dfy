/**
 The multi-producer multi-consumer ticket channel as a sequentially consistent
 step machine: any number of threads, one atomic access to the shared fields
 per step.

 A counter word packs a ticket counter with two flag bits, and a slot id packs a
 phase (twice the round, plus one when the slot is filled) with two flag bits;
 both are modelled unpacked, over unbounded naturals. `History` fields are never
 read by the machine: they record what happened so that properties of whole runs
 can be stated.
 */
module ChannelModel {

  /** The payload, copied whole and never inspected. */
  type Item = int

  datatype Side = PushSide | PopSide

  datatype Word = Word(ticket: nat, pushClosed: bool, popClosed: bool)

  datatype Id = Id(phase: nat, waiting: bool, notify: bool)

  datatype Closing = Closing(push: bool, pop: bool, closed: bool) {
    predicate Any() { push || pop || closed }
  }

  datatype Shared = Shared(
    capacity: nat,
    head: Word, tail: Word,
    headBarrier: nat, tailBarrier: nat,
    headCancels: nat, tailCancels: nat,
    closing: Closing,
    lockRequested: nat, lockCompleted: nat,
    ids: seq<Id>, items: seq<Item>)

  datatype Res = Pending | Ok | Closed | Unavailable | LostRace

  datatype OpPc =
    | Faa | LoadWord | LoadId | LoadClosing | LoadTail | LoadHead | LoadBarrier
    | CountCancel | SubTicket | OrWaiting | FutexWait | Asleep
    | TryCas | Copy | Exchange | Wake | Done

  datatype ClosePc =
    | CIsClosed | CLockReq | CLockWait | CRecheck | COrPush
    | CLoadTail | CLoadHead | CStoreBarrier | CCasBarrier | CReloadTail | CLoadCancels
    | COrPop | CLoadHead2 | CStoreHead | CCasHead | COrHead
    | CWakeOr | CWakeLoad | CWakeAnd | CWakeCall | COrClosed | CUnlock

  /** A thread: idle, inside a push or pop (blocking or `try`), or inside a close. */
  datatype Local =
    | Idle
    | Op(pc: OpPc, side: Side, try: bool, word: Word, item: Item, curr: Id, saw: bool, res: Res)
    | Close(cpc: ClosePc, pushClose: bool, lock: nat, tail: Word, head: Word, tb: nat, hb: nat,
            tailEnd: nat, headEnd: nat, second: bool, cursor: nat, to: nat)

  datatype History = History(
    pushOwner: map<nat, nat>, popOwner: map<nat, nat>, lockOwner: map<nat, nat>,
    stored: map<nat, Item>, taken: map<nat, Item>,
    shutTail: nat, shutHead: nat,
    notifiedTail: set<nat>, notifiedHead: set<nat>)

  datatype State = State(sh: Shared, h: History, threads: seq<Local>)

  /** What a thread does next: the operation to start when idle, or whether its next
      weak compare-exchange or sleep ends spuriously. */
  datatype Action =
    | StartPush(item: Item) | StartPop(space: Item) | StartTryPush(item: Item) | StartTryPop(space: Item)
    | StartClose(pushClose: bool)
    | Go | Spurious

  // ---- views ----

  function Slot(capacity: nat, t: nat): (k: nat)
    requires capacity > 0
    ensures k < capacity
  {
    t % capacity
  }

  /** The phase an operation with ticket `t` waits for. */
  function Want(capacity: nat, d: Side, t: nat): nat
    requires capacity > 0
  {
    2 * (t / capacity) + if d.PopSide? then 1 else 0
  }

  function Counter(sh: Shared, d: Side): Word {
    if d.PushSide? then sh.tail else sh.head
  }

  function WithCounter(sh: Shared, d: Side, w: Word): Shared {
    if d.PushSide? then sh.(tail := w) else sh.(head := w)
  }

  function Barrier(sh: Shared, d: Side): nat {
    if d.PushSide? then sh.tailBarrier else sh.headBarrier
  }

  function Owner(h: History, d: Side): map<nat, nat> {
    if d.PushSide? then h.pushOwner else h.popOwner
  }

  function WithOwner(h: History, d: Side, t: nat, i: nat): History {
    if d.PushSide? then h.(pushOwner := h.pushOwner[t := i]) else h.(popOwner := h.popOwner[t := i])
  }

  function Log(h: History, d: Side): map<nat, Item> {
    if d.PushSide? then h.stored else h.taken
  }

  predicate WellShaped(sh: Shared) {
    sh.capacity > 0 && |sh.ids| == sh.capacity && |sh.items| == sh.capacity
  }

  // ---- push and pop ----

  /** After the closing checks: back off, go ahead, or wait. */
  function Decide(l: Local, cancelled: bool, capacity: nat): Local
    requires l.Op? && capacity > 0
  {
    var matches := l.curr.phase == Want(capacity, l.side, l.word.ticket);
    if l.try then
      if cancelled then l.(pc := Done, res := Closed)
      else if matches then l.(pc := TryCas)
      else l.(pc := Done, res := Unavailable)
    else
      if cancelled then l.(pc := CountCancel)
      else if matches then l.(pc := Copy)
      else l.(pc := OrWaiting)
  }

  predicate SleepsOn(l: Local, capacity: nat, k: nat) {
    capacity > 0 && l.Op? && l.pc.Asleep? && Slot(capacity, l.word.ticket) == k
  }

  /** A futex wake: every thread asleep on slot `k` resumes at the top of its loop. */
  function WakeAll(threads: seq<Local>, capacity: nat, k: nat): (r: seq<Local>)
    ensures |r| == |threads|
    ensures forall j :: 0 <= j < |r| ==>
              r[j] == if SleepsOn(threads[j], capacity, k) then threads[j].(pc := LoadId) else threads[j]
  {
    seq(|threads|, j requires 0 <= j < |threads| =>
      if SleepsOn(threads[j], capacity, k) then threads[j].(pc := LoadId) else threads[j])
  }

  function Goto(s: State, i: nat, l: Local): State
    requires i < |s.threads|
  {
    s.(threads := s.threads[i := l])
  }

  function SetId(sh: Shared, k: nat, id: Id): Shared
    requires k < |sh.ids|
  {
    sh.(ids := sh.ids[k := id])
  }

  /** Where a push or pop goes after a step that only reads the shared fields. */
  function AfterLoad(sh: Shared, l: Local, a: Action): Local
    requires WellShaped(sh) && l.Op?
  {
    var C := sh.capacity;
    var k := Slot(C, l.word.ticket);
    match l.pc
    case LoadWord => l.(pc := LoadId, word := Counter(sh, l.side))
    case LoadId => l.(pc := LoadClosing, curr := sh.ids[k])
    case LoadClosing =>
      if !sh.closing.Any() then Decide(l, false, C)
      else if l.side.PushSide? then l.(pc := LoadTail)
      else l.(pc := LoadHead, saw := false)
    case LoadTail => l.(pc := LoadHead, saw := sh.tail.pushClosed)
    case LoadHead =>
      l.(pc := LoadBarrier, saw := if l.side.PushSide? then l.saw || sh.head.pushClosed else sh.head.popClosed)
    case LoadBarrier => Decide(l, l.saw && Barrier(sh, l.side) <= l.word.ticket, C)
    case FutexWait => if sh.ids[k] == l.curr.(waiting := true) then l.(pc := Asleep) else l.(pc := LoadId)
    case Asleep => if a.Spurious? then l.(pc := LoadId) else l
    case Done => Idle
    case _ => l
  }

  /** The next atomic step of a thread inside a push or pop. */
  function OpNext(s: State, i: nat, a: Action): (r: State)
    requires WellShaped(s.sh) && i < |s.threads| && s.threads[i].Op?
    ensures WellShaped(r.sh) && |r.threads| == |s.threads| && r.sh.capacity == s.sh.capacity
  {
    var l := s.threads[i];
    var sh := s.sh;
    var C := sh.capacity;
    var t := l.word.ticket;
    var k := Slot(C, t);
    var counter := Counter(sh, l.side);
    match l.pc
    case Faa =>
      s.(sh := WithCounter(sh, l.side, counter.(ticket := counter.ticket + 1)),
         h := WithOwner(s.h, l.side, counter.ticket, i),
         threads := s.threads[i := l.(pc := LoadId, word := counter)])
    case CountCancel =>
      s.(sh := if l.side.PushSide? then sh.(tailCancels := sh.tailCancels + 1)
               else sh.(headCancels := sh.headCancels + 1),
         threads := s.threads[i := l.(pc := SubTicket)])
    case SubTicket =>
      s.(sh := WithCounter(sh, l.side, counter.(ticket := if counter.ticket > 0 then counter.ticket - 1 else 0)),
         threads := s.threads[i := l.(pc := Done, res := Closed)])
    case OrWaiting =>
      s.(sh := SetId(sh, k, sh.ids[k].(waiting := true)),
         threads := s.threads[i := l.(pc := FutexWait)])
    case TryCas =>
      if counter == l.word then
        s.(sh := WithCounter(sh, l.side, counter.(ticket := counter.ticket + 1)),
           h := WithOwner(s.h, l.side, t, i),
           threads := s.threads[i := l.(pc := Copy)])
      else
        Goto(s, i, l.(pc := Done, res := LostRace))
    case Copy =>
      if l.side.PushSide? then
        s.(sh := sh.(items := sh.items[k := l.item]),
           h := s.h.(stored := s.h.stored[t := l.item]),
           threads := s.threads[i := l.(pc := Exchange)])
      else
        s.(h := s.h.(taken := s.h.taken[t := sh.items[k]]),
           threads := s.threads[i := l.(pc := Exchange, item := sh.items[k])])
    case Exchange =>
      s.(sh := SetId(sh, k, Id(Want(C, l.side, t) + 1, false, false)),
         threads := s.threads[i := if sh.ids[k].waiting then l.(pc := Wake) else l.(pc := Done, res := Ok)])
    case Wake => Goto(s.(threads := WakeAll(s.threads, C, k)), i, l.(pc := Done, res := Ok))
    case _ => Goto(s, i, AfterLoad(sh, l, a))
  }

  // ---- closing ----

  /** Where the wake-up loop over tickets `from..end` starts; ranges longer than the
      capacity are cut to one lap, and the head range is followed by the tail range. */
  function EnterRange(l: Local, second: bool, capacity: nat): (r: Local)
    requires l.Close?
    ensures r.Close? && (r.cpc.CWakeOr? || r.cpc.COrClosed?)
    decreases !second
  {
    var from := if second then l.tb else l.hb;
    var end := if second then l.tailEnd else l.headEnd;
    var to := if from + capacity < end then from + capacity else end;
    if from < to then l.(cpc := CWakeOr, second := second, cursor := from, to := to)
    else if second then l.(cpc := COrClosed, second := second, cursor := from, to := to)
    else EnterRange(l, true, capacity)
  }

  function AfterWake(l: Local, capacity: nat): (r: Local)
    requires l.Close?
    ensures r.Close? && (r.cpc.CWakeOr? || r.cpc.COrClosed?)
  {
    if l.cursor + 1 < l.to then l.(cpc := CWakeOr, cursor := l.cursor + 1)
    else if l.second then l.(cpc := COrClosed)
    else EnterRange(l, true, capacity)
  }

  /** Where a close goes after a step that only reads the shared fields. */
  function CloseAfterLoad(sh: Shared, l: Local): Local
    requires WellShaped(sh) && l.Close?
  {
    match l.cpc
    case CIsClosed => if sh.closing.Any() then Idle else l.(cpc := CLockReq)
    case CLockWait => if sh.lockCompleted == l.lock then l.(cpc := CRecheck) else l
    case CRecheck => if sh.closing.Any() then l.(cpc := CUnlock) else l.(cpc := COrPush)
    case CLoadTail => l.(cpc := CLoadHead, tail := sh.tail)
    case CLoadHead => l.(cpc := CStoreBarrier, head := sh.head)
    case CReloadTail => l.(cpc := CLoadCancels, tail := sh.tail)
    case CLoadCancels => l.(cpc := COrPop, tailEnd := l.tail.ticket + sh.tailCancels)
    case CLoadHead2 => l.(cpc := CStoreHead, head := sh.head)
    case CWakeLoad =>
      if sh.ids[Slot(sh.capacity, l.cursor)].waiting then l.(cpc := CWakeAnd) else AfterWake(l, sh.capacity)
    case _ => l
  }

  /** The next atomic step of a thread inside a soft or push close. */
  function CloseNext(s: State, i: nat, a: Action): (r: State)
    requires WellShaped(s.sh) && i < |s.threads| && s.threads[i].Close?
    ensures WellShaped(r.sh) && |r.threads| == |s.threads| && r.sh.capacity == s.sh.capacity
  {
    var l := s.threads[i];
    var sh := s.sh;
    var C := sh.capacity;
    var k := Slot(C, l.cursor);
    match l.cpc
    case CLockReq =>
      s.(sh := sh.(lockRequested := sh.lockRequested + 1),
         h := s.h.(lockOwner := s.h.lockOwner[sh.lockRequested := i]),
         threads := s.threads[i := l.(cpc := CLockWait, lock := sh.lockRequested)])
    case COrPush =>
      s.(sh := sh.(closing := sh.closing.(push := true)), threads := s.threads[i := l.(cpc := CLoadTail)])
    case CStoreBarrier =>
      var b := if l.head.ticket + C < l.tail.ticket then l.head.ticket + C else l.tail.ticket;
      s.(sh := sh.(tailBarrier := b), threads := s.threads[i := l.(cpc := CCasBarrier, tb := b)])
    case CCasBarrier =>
      if l.head.ticket + C < l.tail.ticket then
        if sh.head == l.head && !a.Spurious? then
          s.(sh := sh.(head := sh.head.(pushClosed := true)),
             h := s.h.(shutTail := sh.tail.ticket),
             threads := s.threads[i := l.(cpc := CReloadTail)])
        else Goto(s, i, l.(cpc := CLoadTail))
      else
        if sh.tail == l.tail && !a.Spurious? then
          s.(sh := sh.(tail := sh.tail.(pushClosed := true)),
             h := s.h.(shutTail := sh.tail.ticket),
             threads := s.threads[i := l.(cpc := COrPop, tailEnd := l.tail.ticket)])
        else Goto(s, i, l.(cpc := CLoadTail))
    case COrPop =>
      s.(sh := sh.(closing := sh.closing.(pop := true)),
         threads := s.threads[i := if l.pushClose then l.(cpc := CStoreHead) else l.(cpc := CLoadHead2)])
    case CStoreHead =>
      var b := if l.pushClose || l.tb <= l.head.ticket then l.tb else l.head.ticket;
      s.(sh := sh.(headBarrier := b),
         threads := s.threads[i := l.(cpc := if l.pushClose then COrHead else CCasHead, hb := b)])
    case CCasHead =>
      if sh.head == l.head && !a.Spurious? then
        s.(sh := sh.(head := sh.head.(popClosed := true)),
           h := s.h.(shutHead := sh.head.ticket),
           threads := s.threads[i := EnterRange(l.(headEnd := l.head.ticket), false, C)])
      else Goto(s, i, l.(cpc := CLoadHead2))
    case COrHead =>
      s.(sh := sh.(head := sh.head.(popClosed := true)),
         h := s.h.(shutHead := sh.head.ticket),
         threads := s.threads[i := EnterRange(l.(headEnd := sh.head.ticket), false, C)])
    case CWakeOr =>
      s.(sh := SetId(sh, k, sh.ids[k].(notify := true)),
         h := if l.second then s.h.(notifiedTail := s.h.notifiedTail + {k})
              else s.h.(notifiedHead := s.h.notifiedHead + {k}),
         threads := s.threads[i := l.(cpc := CWakeLoad)])
    case CWakeAnd =>
      s.(sh := SetId(sh, k, sh.ids[k].(waiting := false)), threads := s.threads[i := l.(cpc := CWakeCall)])
    case CWakeCall => Goto(s.(threads := WakeAll(s.threads, C, k)), i, AfterWake(l, C))
    case COrClosed =>
      s.(sh := sh.(closing := sh.closing.(closed := true)), threads := s.threads[i := l.(cpc := CUnlock)])
    case CUnlock =>
      s.(sh := sh.(lockCompleted := sh.lockCompleted + 1), threads := s.threads[i := Idle])
    case _ => Goto(s, i, CloseAfterLoad(sh, l))
  }

  // ---- runs ----

  function Start(a: Action): Local {
    var w := Word(0, false, false);
    var id := Id(0, false, false);
    match a
    case StartPush(x) => Op(Faa, PushSide, false, w, x, id, false, Pending)
    case StartPop(x) => Op(Faa, PopSide, false, w, x, id, false, Pending)
    case StartTryPush(x) => Op(LoadWord, PushSide, true, w, x, id, false, Pending)
    case StartTryPop(x) => Op(LoadWord, PopSide, true, w, x, id, false, Pending)
    case StartClose(p) => Close(CIsClosed, p, 0, w, w, 0, 0, 0, 0, false, 0, 0)
    case _ => Idle
  }

  /** One step of thread `i`. */
  function Next(s: State, i: nat, a: Action): (r: State)
    requires WellShaped(s.sh)
    ensures WellShaped(r.sh) && |r.threads| == |s.threads| && r.sh.capacity == s.sh.capacity
  {
    if i >= |s.threads| then s
    else match s.threads[i]
      case Idle => Goto(s, i, Start(a))
      case Op(_, _, _, _, _, _, _, _) => OpNext(s, i, a)
      case Close(_, _, _, _, _, _, _, _, _, _, _, _) => CloseNext(s, i, a)
  }

  /** A freshly initialised channel with `n` idle threads; `items` is whatever the storage held. */
  function Init(items: seq<Item>, n: nat): (s: State)
    requires |items| > 0
    ensures WellShaped(s.sh)
  {
    var w := Word(0, false, false);
    State(Shared(|items|, w, w, 0, 0, 0, 0, Closing(false, false, false), 0, 0,
                 seq(|items|, _ => Id(0, false, false)), items),
          History(map[], map[], map[], map[], map[], 0, 0, {}, {}),
          seq(n, _ => Idle))
  }

  /** The state after a schedule of (thread, action) steps, oldest first. */
  function Run(s: State, schedule: seq<(nat, Action)>): (r: State)
    requires WellShaped(s.sh)
    ensures WellShaped(r.sh)
    decreases |schedule|
  {
    if schedule == [] then s
    else
      var last := schedule[|schedule| - 1];
      var before := Run(s, schedule[..|schedule| - 1]);
      Next(before, last.0, last.1)
  }
}
