/**
 How far the queue's capacity limit bounds it: growth asks for at most the limit, but rounds up.
 */
module SpmcLimit {
  import opened SpmcModel
  import opened SpmcTheorems

  /** The largest ring a limit can lead to; a limit of zero allows none. */
  function Rounded(limit: nat): nat {
    if limit == 0 then 0 else NewCapacity(limit, 64)
  }

  lemma {:induction false} CapacityGrows(a: nat, b: nat, capacity: nat)
    requires a <= b && capacity > 0
    ensures NewCapacity(a, capacity) <= NewCapacity(b, capacity)
    decreases b - capacity
  {
    if capacity < a { CapacityGrows(a, b, 2 * capacity); }
  }

  ghost predicate Limited(s: State) {
    s.limit >= 0 ==>
      && Capacity(s.sh) <= Rounded(s.limit)
      && (s.producer.PushCopy? ==> s.producer.capacity <= Rounded(s.limit))
      && (s.producer.PushPublish? ==> |s.producer.ring.data| <= Rounded(s.limit))
  }

  lemma NextLimited(s: State, a: Action)
    requires Limited(s)
    ensures Limited(Next(s, a)) && Next(s, a).limit == s.limit
  {
    hide SlotOf, NewCapacity, Copied;
    if a.ProducerStep? && s.producer.PushReserve? && s.limit >= 0 {
      var size := Wanted(s.sh, s.estimateHead, s.producer.purpose);
      if 0 < size <= s.limit { CapacityGrows(size, s.limit, 64); }
    }
  }

  lemma {:induction false} RunLimited(limit: int, threads: nat, actions: seq<Action>)
    ensures Limited(Run(limit, threads, actions)) && Run(limit, threads, actions).limit == limit
  {
    hide Next, Limited;
    if actions == [] {
      InitLimited(limit, threads);
    } else {
      RunLimited(limit, threads, actions[..|actions| - 1]);
      NextLimited(Run(limit, threads, actions[..|actions| - 1]), actions[|actions| - 1]);
    }
  }

  lemma InitLimited(limit: int, threads: nat)
    ensures Limited(Init(limit, threads)) && Init(limit, threads).limit == limit
  {
  }

  function Stored(s: State): int {
    s.sh.tail - s.sh.head
  }

  /** No run stores more than the rounded limit. */
  lemma RoundedBounds(limit: nat, threads: nat, actions: seq<Action>)
    ensures Stored(Run(limit, threads, actions)) <= Rounded(limit)
  {
    hide Run;
    EveryRun(limit, threads, actions);
    RunLimited(limit, threads, actions);
  }

  // ---- a run that fills more than the limit ----

  lemma RunMore(limit: int, threads: nat, actions: seq<Action>, a: Action)
    ensures Run(limit, threads, actions + [a]) == Next(Run(limit, threads, actions), a)
  {
    assert (actions + [a])[..|actions|] == actions;
  }

  /** The run goes on with this action alone. */
  ghost predicate Only(actions: seq<Action>, longer: seq<Action>, a: Action) {
    actions <= longer && forall k | |actions| <= k < |longer| :: longer[k] == a
  }

  /** Writing out a push and storing the tail. */
  lemma {:induction false} WriteOut(limit: int, threads: nat, actions: seq<Action>) returns (longer: seq<Action>)
    requires var s := Run(limit, threads, actions); s.producer.PushWrite? && Capacity(s.sh) > 0
    ensures var s, t := Run(limit, threads, actions), Run(limit, threads, longer);
      && t.producer == PushIdle && t.sh.tail == s.sh.tail + |s.producer.items| && t.sh.head == s.sh.head
      && Capacity(t.sh) == Capacity(s.sh) && t.estimateHead == s.estimateHead && t.sh.blocks != []
      && t.h == s.h.(pushed := s.h.pushed + s.producer.items) && t.consumers == s.consumers
    ensures Only(actions, longer, ProducerStep(true))
    decreases var p := Run(limit, threads, actions).producer; if p.PushWrite? then |p.items| - p.done + 1 else 0
  {
    hide SlotOf, Run;
    var a := ProducerStep(true);
    RunMore(limit, threads, actions, a);
    var s := Run(limit, threads, actions);
    if s.producer.done < |s.producer.items| {
      longer := WriteOut(limit, threads, actions + [a]);
    } else {
      longer := actions + [a];
    }
  }

  /** The four steps of a first push that reach its writes. */
  lemma FirstPush(limit: int, threads: nat, items: seq<Item>) returns (actions: seq<Action>)
    requires 0 < |items| && (limit < 0 || |items| <= limit)
    ensures var s := Run(limit, threads, actions);
      && s.producer == PushWrite(items, 0) && Capacity(s.sh) == NewCapacity(|items|, 64) && s.sh.head == s.sh.tail == s.estimateHead == 0
  {
    hide Run, NewCapacity;
    var step := ProducerStep(true);
    RunEmpty(limit, threads);
    RunMore(limit, threads, [], Push(items));
    RunMore(limit, threads, [] + [Push(items)], step);
    RunMore(limit, threads, [] + [Push(items)] + [step], step);
    RunMore(limit, threads, [] + [Push(items)] + [step] + [step], step);
    actions := [] + [Push(items)] + [step] + [step] + [step];
  }

  lemma RunEmpty(limit: int, threads: nat)
    ensures Run(limit, threads, []) == Init(limit, threads)
  {
  }

  /** Where rounding up exceeds the limit, a run of pushes stores more than it. */
  lemma OverTheLimit(limit: nat, threads: nat) returns (actions: seq<Action>)
    requires Rounded(limit) > limit
    ensures Stored(Run(limit, threads, actions)) > limit
  {
    hide Run, NewCapacity;
    var items: seq<Item> := seq(limit, _ => 0);
    actions := FirstPush(limit, threads, items);
    actions := WriteOut(limit, threads, actions);
    RunMore(limit, threads, actions, Push([0]));
    actions := WriteOut(limit, threads, actions + [Push([0])]);
  }

  /** The limit bounds the stored items in every run exactly when rounding up does not change it. */
  lemma LimitHolds(limit: nat, threads: nat)
    ensures (forall actions: seq<Action> :: Stored(Run(limit, threads, actions)) <= limit) <==> Rounded(limit) == limit
  {
    hide Run, NewCapacity, Stored;
    RoundedAbove(limit);
    if Rounded(limit) == limit {
      forall actions: seq<Action> ensures Stored(Run(limit, threads, actions)) <= limit { RoundedBounds(limit, threads, actions); }
    } else {
      var actions := OverTheLimit(limit, threads);
    }
  }

  lemma RoundedAbove(limit: nat)
    ensures Rounded(limit) >= limit
  {
  }

  // ---- refusals ----

  /** A push that has to grow the ring is refused, and changes nothing, exactly when memory is not granted, when what it
      asks for is above a limit that is not negative, or when it pushes nothing and there is no ring yet. */
  lemma RefusedExactly(limit: int, threads: nat, actions: seq<Action>, granted: bool)
    requires var p := Run(limit, threads, actions).producer; p.PushReserve? && p.purpose.ForPush?
    ensures var s := Run(limit, threads, actions);
      var t, count := Next(s, ProducerStep(granted)), |s.producer.purpose.items|;
      && (t.producer == PushIdle <==>
            || !granted || (limit >= 0 && s.sh.tail - s.estimateHead + count > limit) || (s.sh.blocks == [] && count == 0))
      && t == s.(producer := t.producer)
  {
    hide Run, NewCapacity;
    RunLimited(limit, threads, actions);
    RunCrowded(limit, threads, actions);
    EveryRun(limit, threads, actions);
  }

  /** A push only grows the ring when it does not fit it. */
  ghost predicate GrowsWhenCrowded(s: State) {
    s.producer.PushReserve? && s.producer.purpose.ForPush? ==> Crowded(s.sh, s.estimateHead, |s.producer.purpose.items|)
  }

  lemma {:induction false} RunCrowded(limit: int, threads: nat, actions: seq<Action>)
    ensures GrowsWhenCrowded(Run(limit, threads, actions))
  {
    if actions != [] {
      RunCrowded(limit, threads, actions[..|actions| - 1]);
      NextCrowded(Run(limit, threads, actions[..|actions| - 1]), actions[|actions| - 1]);
    }
  }

  lemma NextCrowded(s: State, a: Action)
    requires GrowsWhenCrowded(s)
    ensures GrowsWhenCrowded(Next(s, a))
  {
    hide SlotOf, NewCapacity, Copied;
  }

  /** The limit of zero, which the documentation calls no limit, is the only one under which nothing is ever pushed. */
  lemma OnlyZeroRefusesAll(limit: int, threads: nat)
    ensures (forall actions: seq<Action> :: Run(limit, threads, actions).h.pushed == []) <==> limit == 0
  {
    hide Run, NewCapacity;
    if limit == 0 {
      forall actions: seq<Action> ensures Run(limit, threads, actions).h.pushed == [] {
        EveryRun(limit, threads, actions);
        RunLimited(limit, threads, actions);
      }
    } else {
      var actions := FirstPush(limit, threads, [0]);
      actions := WriteOut(limit, threads, actions);
      EveryRun(limit, threads, actions);
    }
  }
}
