/**
 What the callers of the queue see: the items pushed are the arguments of the pushes that were accepted, a pop that
 finds the queue empty looked at an empty queue, and a push or pop that is left alone does its work.
 */
module SpmcTrace {
  import opened SpmcModel
  import opened SpmcTheorems
  import opened SpmcLimit

  // ---- pushed items come from the callers ----

  datatype Load = Nothing | Load(items: seq<Item>)

  /** The items of the push the producer is inside of. */
  function LoadOf(p: Producer): Load {
    match p
    case PushLoadHead(items) => Load(items)
    case PushReserve(ForPush(items)) => Load(items)
    case PushCopy(ForPush(items), _) => Load(items)
    case PushPublish(ForPush(items), _) => Load(items)
    case PushWrite(items, _) => Load(items)
    case _ => Nothing
  }

  /** The `k`-th action of the run starts a push. */
  ghost predicate StartsPush(limit: int, threads: nat, actions: seq<Action>, k: nat) {
    k < |actions| && actions[k].Push? && Run(limit, threads, actions[..k]).producer == PushIdle
  }

  /** The arguments of the given actions, one after the other. */
  ghost function Arguments(actions: seq<Action>, ks: seq<nat>): seq<Item> {
    if ks == [] then []
    else
      var k := ks[|ks| - 1];
      Arguments(actions, ks[..|ks| - 1]) + if k < |actions| && actions[k].Push? then actions[k].items else []
  }

  /** `ks` are the pushes that were accepted, in order, and `current` is the one at work. */
  ghost predicate Traced(limit: int, threads: nat, actions: seq<Action>, ks: seq<nat>, current: nat) {
    var s := Run(limit, threads, actions);
    && (forall x, y | 0 <= x < y < |ks| :: ks[x] < ks[y])
    && (forall x | 0 <= x < |ks| :: StartsPush(limit, threads, actions, ks[x]))
    && s.h.pushed == Arguments(actions, ks)
    && (LoadOf(s.producer).Load? ==>
          && StartsPush(limit, threads, actions, current) && LoadOf(s.producer) == Load(actions[current].items)
          && forall x | 0 <= x < |ks| :: ks[x] < current)
  }

  lemma {:induction false} ArgumentsKept(actions: seq<Action>, a: Action, ks: seq<nat>)
    requires forall x | 0 <= x < |ks| :: ks[x] < |actions|
    ensures Arguments(actions + [a], ks) == Arguments(actions, ks)
    decreases |ks|
  {
    if ks != [] { ArgumentsKept(actions, a, ks[..|ks| - 1]); }
  }

  lemma ArgumentsMore(actions: seq<Action>, ks: seq<nat>, k: nat)
    requires k < |actions| && actions[k].Push?
    ensures Arguments(actions, ks + [k]) == Arguments(actions, ks) + actions[k].items
  {
    assert (ks + [k])[..|ks|] == ks;
  }

  lemma StartKept(limit: int, threads: nat, actions: seq<Action>, a: Action, k: nat)
    requires StartsPush(limit, threads, actions, k)
    ensures StartsPush(limit, threads, actions + [a], k) && (actions + [a])[k] == actions[k] && k < |actions|
  {
    hide Run;
    assert (actions + [a])[..k] == actions[..k];
  }

  lemma StartsHere(limit: int, threads: nat, actions: seq<Action>, a: Action)
    requires a.Push? && Run(limit, threads, actions).producer == PushIdle
    ensures StartsPush(limit, threads, actions + [a], |actions|)
  {
    assert (actions + [a])[..|actions|] == actions;
  }

  /** What a step does to the items at work and to those pushed. */
  lemma StepLoad(s: State, a: Action)
    ensures var t := Next(s, a);
      && (t.h.pushed == s.h.pushed
          || (t.producer == PushIdle && LoadOf(s.producer).Load? && t.h.pushed == s.h.pushed + LoadOf(s.producer).items))
      && (if s.producer == PushIdle && a.Push? then LoadOf(t.producer) == Load(a.items)
          else LoadOf(t.producer) == Nothing || LoadOf(t.producer) == LoadOf(s.producer))
  {
    hide SlotOf, NewCapacity, Copied;
  }

  lemma TracedStep(limit: int, threads: nat, actions: seq<Action>, a: Action, ks: seq<nat>, current: nat)
      returns (ks': seq<nat>, current': nat)
    requires Traced(limit, threads, actions, ks, current)
    ensures Traced(limit, threads, actions + [a], ks', current')
  {
    hide Run, Next, StartsPush, Arguments;
    RunMore(limit, threads, actions, a);
    var s, t := Run(limit, threads, actions), Run(limit, threads, actions + [a]);
    StepLoad(s, a);
    forall x | 0 <= x < |ks| ensures StartsPush(limit, threads, actions + [a], ks[x]) && ks[x] < |actions| {
      StartKept(limit, threads, actions, a, ks[x]);
    }
    ArgumentsKept(actions, a, ks);
    if LoadOf(s.producer).Load? { StartKept(limit, threads, actions, a, current); }
    ks', current' := ks, current;
    if t.h.pushed != s.h.pushed {
      StartIs(limit, threads, actions, current);
      ArgumentsMore(actions + [a], ks, current);
      ks' := ks + [current];
    } else if s.producer == PushIdle && a.Push? {
      StartsHere(limit, threads, actions, a);
      current' := |actions|;
    }
  }

  lemma StartIs(limit: int, threads: nat, actions: seq<Action>, k: nat)
    requires StartsPush(limit, threads, actions, k)
    ensures k < |actions| && actions[k].Push?
  {
  }

  /** In every run the items pushed are the arguments of some of the pushes, in the order in which they were made. */
  lemma {:induction false} PushedAreArguments(limit: int, threads: nat, actions: seq<Action>)
      returns (ks: seq<nat>, current: nat)
    ensures Traced(limit, threads, actions, ks, current)
  {
    hide Traced, Run;
    if actions == [] {
      ks, current := [], 0;
      TracedStart(limit, threads);
    } else {
      var before, a := actions[..|actions| - 1], actions[|actions| - 1];
      ks, current := PushedAreArguments(limit, threads, before);
      ks, current := TracedStep(limit, threads, before, a, ks, current);
      assert before + [a] == actions;
    }
  }

  lemma TracedStart(limit: int, threads: nat)
    ensures Traced(limit, threads, [], [], 0)
  {
  }

  // ---- what a pop answers ----

  /** A consumer that goes back to idle either tried its swap or is about to report a tail at or below its head. */
  lemma EndsOfPop(s: State, i: nat)
    requires i < |s.consumers| && !s.consumers[i].PopIdle? && Next(s, ConsumerStep(i)).consumers[i].PopIdle?
    ensures s.consumers[i].PopCas? || (s.consumers[i].PopStoreEstimate? && s.consumers[i].tail <= s.consumers[i].head)
  {
  }

  /** After the step at `j`, and ever since, consumer `i` is about to store the tail it loaded. */
  ghost predicate StoringSince(limit: int, threads: nat, actions: seq<Action>, i: nat, j: nat) {
    forall m: nat | j < m <= |actions| :: Storing(Run(limit, threads, actions[..m]), i)
  }

  ghost predicate Storing(s: State, i: nat) {
    i < |s.consumers| && s.consumers[i].PopStoreEstimate?
  }

  lemma StoringMore(limit: int, threads: nat, actions: seq<Action>, a: Action, i: nat, j: nat)
    requires j <= |actions| && StoringSince(limit, threads, actions, i, j) && Storing(Run(limit, threads, actions + [a]), i)
    ensures StoringSince(limit, threads, actions + [a], i, j)
  {
    hide Run, Storing;
    forall m: nat | j < m <= |actions| + 1 ensures Storing(Run(limit, threads, (actions + [a])[..m]), i) {
      if m <= |actions| {
        assert (actions + [a])[..m] == actions[..m];
      } else {
        assert (actions + [a])[..m] == actions + [a];
      }
    }
  }

  /** A remembered tail was the tail at some earlier step of the same pop. */
  lemma {:induction false} TailWasLoaded(limit: int, threads: nat, actions: seq<Action>, i: nat) returns (j: nat)
    requires var s := Run(limit, threads, actions); i < |s.consumers| && s.consumers[i].PopStoreEstimate?
    ensures j < |actions| && actions[j] == ConsumerStep(i)
    ensures var s, u := Run(limit, threads, actions), Run(limit, threads, actions[..j]);
      i < |u.consumers| && u.consumers[i] == PopLoadTail(s.consumers[i].head) && u.sh.tail == s.consumers[i].tail
    ensures StoringSince(limit, threads, actions, i, j)
  {
    hide SlotOf, NewCapacity, Copied;
    if actions != [] {
      var before, a := actions[..|actions| - 1], actions[|actions| - 1];
      var u := Run(limit, threads, before);
      if i < |u.consumers| && u.consumers[i].PopStoreEstimate? {
        j := TailWasLoaded(limit, threads, before, i);
        assert actions[..j] == before[..j];
      } else {
        j := |actions| - 1;
      }
      assert before + [a] == actions;
      StoringMore(limit, threads, before, a, i, j);
    }
  }

  /** A pop that reports an empty queue loaded, in that same pop, the tail of an empty queue. */
  lemma EmptyWasTrue(limit: int, threads: nat, actions: seq<Action>, i: nat) returns (j: nat)
    requires var s := Run(limit, threads, actions);
      && i < |s.consumers| && !s.consumers[i].PopIdle? && !s.consumers[i].PopCas?
      && Next(s, ConsumerStep(i)).consumers[i].PopIdle?
    ensures j < |actions| && actions[j] == ConsumerStep(i)
    ensures var u := Run(limit, threads, actions[..j]);
      i < |u.consumers| && u.consumers[i].PopLoadTail? && u.sh.head == u.sh.tail && u.h.popped == u.h.pushed
    ensures StoringSince(limit, threads, actions, i, j)
  {
    hide Run, StoringSince;
    EndsOfPop(Run(limit, threads, actions), i);
    j := TailWasLoaded(limit, threads, actions, i);
    EmptyIsTrue(limit, threads, actions[..j], i);
  }

  // ---- left alone, the operations do their work ----

  /** A push of these items finds room, or may make it. */
  predicate Accepts(s: State, count: nat) {
    || !Crowded(s.sh, s.sh.head, count)
    || ((s.limit < 0 || s.sh.tail - s.sh.head + count <= s.limit) && (s.sh.blocks != [] || count > 0))
  }

  /** A push that has begun to write ends with its items pushed. */
  lemma WritesOut(limit: int, threads: nat, actions: seq<Action>, items: seq<Item>, pushed: seq<Item>)
      returns (longer: seq<Action>)
    requires var s := Run(limit, threads, actions); s.producer == PushWrite(items, 0) && s.h.pushed == pushed
    ensures Only(actions, longer, ProducerStep(true))
    ensures var t := Run(limit, threads, longer); t.producer == PushIdle && t.h.pushed == pushed + items
  {
    hide Run;
    EveryRun(limit, threads, actions);
    longer := WriteOut(limit, threads, actions);
  }

  /** The steps of a growing push up to its writes. */
  lemma GrowsOut(limit: int, threads: nat, actions: seq<Action>, items: seq<Item>) returns (longer: seq<Action>)
    requires var s := Run(limit, threads, actions);
      && s.producer == PushReserve(ForPush(items)) && s.estimateHead == s.sh.head
      && Accepts(s, |items|) && Crowded(s.sh, s.sh.head, |items|)
    ensures Only(actions, longer, ProducerStep(true))
    ensures var s, t := Run(limit, threads, actions), Run(limit, threads, longer);
      t.producer == PushWrite(items, 0) && t.h.pushed == s.h.pushed
  {
    hide Run, NewCapacity, Copied;
    EveryRun(limit, threads, actions);
    var step := ProducerStep(true);
    RunMore(limit, threads, actions, step);
    RunMore(limit, threads, actions + [step], step);
    RunMore(limit, threads, actions + [step] + [step], step);
    longer := if Run(limit, threads, actions).sh.blocks == [] then actions + [step] + [step] else actions + [step] + [step] + [step];
  }

  /** A push in an idle state, with memory granted and the consumers standing still, ends with its items pushed if there
      is room or may be made, and with nothing changed but the producer's estimate otherwise. */
  lemma PushAlone(limit: int, threads: nat, actions: seq<Action>, items: seq<Item>) returns (longer: seq<Action>)
    requires Run(limit, threads, actions).producer == PushIdle
    ensures Only(actions + [Push(items)], longer, ProducerStep(true))
    ensures var s, t := Run(limit, threads, actions), Run(limit, threads, longer);
      && t.producer == PushIdle
      && (Accepts(s, |items|) ==> t.h.pushed == s.h.pushed + items)
      && (!Accepts(s, |items|) ==> t == s.(estimateHead := t.estimateHead))
  {
    hide Run, NewCapacity;
    EveryRun(limit, threads, actions);
    var s := Run(limit, threads, actions);
    var step := ProducerStep(true);
    longer := actions + [Push(items)];
    RunMore(limit, threads, actions, Push(items));
    if Crowded(s.sh, s.estimateHead, |items|) {
      RunMore(limit, threads, longer, step);
      longer := longer + [step];
      if Crowded(s.sh, s.sh.head, |items|) {
        if Accepts(s, |items|) {
          longer := GrowsOut(limit, threads, longer, items);
          longer := WritesOut(limit, threads, longer, items, s.h.pushed);
        } else {
          RunMore(limit, threads, longer, step);
          longer := longer + [step];
        }
      } else {
        longer := WritesOut(limit, threads, longer, items, s.h.pushed);
      }
    } else {
      longer := WritesOut(limit, threads, longer, items, s.h.pushed);
    }
  }

  /** One step of a consumer. */
  lemma PopStep(limit: int, threads: nat, actions: seq<Action>, i: nat)
    requires i < |Run(limit, threads, actions).consumers|
    ensures var s, t := Run(limit, threads, actions), Run(limit, threads, actions + [ConsumerStep(i)]);
      && |t.consumers| == |s.consumers| && (t.sh, t.h, t.consumers[i]) == Consume(s.sh, s.h, s.consumers[i])
  {
    hide Run, Consume;
    RunMore(limit, threads, actions, ConsumerStep(i));
  }

  lemma ReadsOut(limit: int, threads: nat, actions: seq<Action>, i: nat) returns (longer: seq<Action>)
    requires var s := Run(limit, threads, actions);
      i < |s.consumers| && s.consumers[i].PopLoadBlock? && s.consumers[i].head == s.sh.head
    ensures Only(actions, longer, ConsumerStep(i))
    ensures var s, t := Run(limit, threads, actions), Run(limit, threads, longer);
      && i < |t.consumers| && t.consumers[i] == PopIdle && s.sh.head < |s.h.pushed|
      && t.sh.head == s.sh.head + 1 && t.h.popped == s.h.popped + [s.h.pushed[s.sh.head]]
  {
    hide Run, SlotOf;
    EveryRun(limit, threads, actions);
    var s := Run(limit, threads, actions);
    assert ConsumerOk(s.sh, s.h, s.consumers[i]);
    var step := ConsumerStep(i);
    PopStep(limit, threads, actions, i);
    PopStep(limit, threads, actions + [step], i);
    PopStep(limit, threads, actions + [step] + [step], i);
    longer := actions + [step] + [step] + [step];
  }

  /** A pop in an idle state that is left alone takes the oldest item, or finds the queue empty. */
  lemma PopAlone(limit: int, threads: nat, actions: seq<Action>, i: nat) returns (longer: seq<Action>)
    requires var s := Run(limit, threads, actions); i < |s.consumers| && s.consumers[i] == PopIdle
    ensures Only(actions, longer, ConsumerStep(i)) && longer != actions
    ensures var s, t := Run(limit, threads, actions), Run(limit, threads, longer);
      && i < |t.consumers| && t.consumers[i] == PopIdle
      && (if s.sh.head < s.sh.tail then
            && s.sh.head < |s.h.pushed| && t.h.popped == s.h.popped + [s.h.pushed[s.sh.head]] && t.sh.head == s.sh.head + 1
          else t.h == s.h && t.sh == s.sh.(estimateTail := t.sh.estimateTail))
  {
    hide Run, SlotOf;
    EveryRun(limit, threads, actions);
    var s := Run(limit, threads, actions);
    var step := ConsumerStep(i);
    PopStep(limit, threads, actions, i);
    PopStep(limit, threads, actions + [step], i);
    longer := actions + [step] + [step];
    if s.sh.estimateTail <= s.sh.head {
      PopStep(limit, threads, longer, i);
      PopStep(limit, threads, longer + [step], i);
      longer := longer + [step] + [step];
    }
    if s.sh.head < s.sh.tail { longer := ReadsOut(limit, threads, longer, i); }
  }
}
