/**
 The hash table's operations, each proved against the multiset of (hash, value) entries it stands for.
 */
module HashMap {
  import opened Arith
  import opened HashProbe
  import opened HashTable

  /** Storing a used entry into a free slot adds one entry. */
  lemma StoreAdds(s: seq<Entry>, empty: nat, count: nat, graves: nat, i: nat, e: Entry, k: nat)
    requires TableOk(s, empty, count, graves) && i < |s| && !Used(s[i], empty) && Used(e, empty)
    requires k < |s| && Probe(e.hash, |s|, k) == i && Path(s, empty, e.hash, k) && 4 * (count + 1 + graves) <= 3 * |s|
    ensures Bag(s[i := e], empty) == Bag(s, empty) + multiset{e}
    ensures graves >= Grave(s[i], empty) && TableOk(s[i := e], empty, count + 1, graves - Grave(s[i], empty))
  {
    hide Bag, Graves, AllReachable, Masked, Probe, Path;
    StoreKeepsReachable(s, empty, i, e, k);
    Replace(s, empty, i, e);
  }

  /** Turning a used entry into a gravestone removes one entry. */
  lemma BuryRemoves(s: seq<Entry>, empty: nat, count: nat, graves: nat, i: nat)
    requires TableOk(s, empty, count, graves) && i < |s| && Used(s[i], empty)
    ensures var t := s[i := s[i].(value := Gravestone(empty))];
      && Bag(t, empty) + multiset{s[i]} == Bag(s, empty) && count > 0 && TableOk(t, empty, count - 1, graves + 1)
  {
    hide Bag, Graves, AllReachable, Masked, Probe, Path;
    var e := s[i].(value := Gravestone(empty));
    StoreKeepsReachable(s, empty, i, e, 0);
    Replace(s, empty, i, e);
    UsedInBag(s, empty, i);
  }

  /** Burying a slot keeps the counts right only if it held an entry. */
  lemma BuryOnlyEntries(s: seq<Entry>, empty: nat, count: nat, graves: nat, i: nat)
    requires TableOk(s, empty, count, graves) && i < |s| && count > 0
    ensures var t := s[i := s[i].(value := Gravestone(empty))];
      && (TableOk(t, empty, count - 1, graves + 1) <==> Used(s[i], empty))
      && (Used(s[i], empty) ==> Bag(t, empty) + multiset{s[i]} == Bag(s, empty))
  {
    hide Bag, Graves, AllReachable;
    if Used(s[i], empty) {
      BuryRemoves(s, empty, count, graves, i);
    } else {
      var e := s[i].(value := Gravestone(empty));
      Replace(s, empty, i, e);
      assert One(s[i], empty) == multiset{} && One(e, empty) == multiset{};
      assert Bag(s[i := e], empty) + multiset{} == Bag(s[i := e], empty) && Bag(s, empty) + multiset{} == Bag(s, empty);
    }
  }

  /** Every table has a slot that must not be buried. */
  lemma EmptyIsNotForBurying(s: seq<Entry>, empty: nat, count: nat, graves: nat) returns (i: nat)
    requires TableOk(s, empty, count, graves) && count > 0
    ensures i < |s| && !TableOk(s[i := s[i].(value := Gravestone(empty))], empty, count - 1, graves + 1)
  {
    hide Bag, Graves, AllReachable;
    i := EmptySlot(s, empty);
    BuryOnlyEntries(s, empty, count, graves, i);
  }

  function RehashTo(required: nat, capacity: nat): nat
    requires capacity > 0
    decreases 4 * required - 3 * capacity
  {
    if capacity * 3 / 4 < required then RehashTo(required, 2 * capacity) else capacity
  }

  /** How many entries a rehash makes room for; more gravestones than entries are not worth keeping room for. */
  function Required(count: nat, gravestones: nat, toSize: nat): nat {
    var required := if gravestones > count then count else gravestones + count;
    if required < toSize then toSize else required
  }

  class Hash {
    var entries: seq<Entry>
    var count: nat
    var gravestones: nat
    var emptyValue: nat
    var rehashedTimes: nat

    ghost predicate Valid()
      reads this
    {
      TableOk(entries, emptyValue, count, gravestones)
    }

    ghost function Contents(): multiset<Entry>
      reads this
    {
      Bag(entries, emptyValue)
    }

    /** The iterator stands at the `iter - 1`-th probe and met no empty slot on the way. */
    ghost predicate At(hash: nat, index: nat, iter: nat)
      reads this
    {
      iter > 0 && (|entries| > 0 ==> index == Probe(hash, |entries|, iter - 1) && Path(entries, emptyValue, hash, iter - 1))
    }

    /** No entry of the hash is left at or after the `k`-th probe. */
    ghost predicate NoneFrom(hash: nat, k: nat)
      reads this
    {
      |entries| > 0 ==> forall j: nat | k <= j < |entries| && Path(entries, emptyValue, hash, j) :: !Match(entries, emptyValue, hash, j)
    }

    method ItMake(hash: nat) returns (index: nat, iter: nat)
      ensures At(hash, index, iter) && iter == 1
    {
      // with no capacity the mask is 32 bits wide, and the index is never used
      index := Masked(hash, if |entries| > 0 then |entries| else 0x1_0000_0000);
      iter := 1;
      if |entries| > 0 { NextProbe(hash, |entries|, 0); }
    }

    /** Continues to the next entry of the hash, or to the first empty slot. */
    method FindNext(hash: nat, index0: nat, iter0: nat) returns (found: bool, index: nat, iter: nat)
      requires Valid() && At(hash, index0, iter0)
      ensures found ==> |entries| > 0 && iter0 <= iter <= |entries| && At(hash, index, iter) && Match(entries, emptyValue, hash, iter - 1)
      ensures found ==> forall j: nat | iter0 - 1 <= j < iter - 1 :: !Match(entries, emptyValue, hash, j)
      ensures !found ==> NoneFrom(hash, iter0 - 1)
    {
      hide Bag, Graves, AllReachable, Masked, Probe, IsPow2;
      index, iter := index0, iter0;
      if count > 0 {
        ghost var e := FirstEmpty(entries, emptyValue, hash);
        while entries[index].value != emptyValue
          invariant iter0 <= iter <= e + 1 && At(hash, index, iter)
          invariant forall j: nat | iter0 - 1 <= j < iter - 1 :: !Match(entries, emptyValue, hash, j)
          decreases |entries| - iter
        {
          if entries[index].hash == hash && entries[index].value != Gravestone(emptyValue) {
            return true, index, iter;
          }
          NextProbe(hash, |entries|, iter - 1);
          index := Masked(index + iter, |entries|);
          iter := iter + 1;
        }
        EndOfPath(entries, emptyValue, hash, iter - 1);
      } else if |entries| > 0 {
        NothingMatches(entries, emptyValue, hash);
      }
      found := false;
    }

    /** Finds an entry of the hash exactly when there is one. */
    method Find(hash: nat) returns (found: bool, index: nat)
      requires Valid()
      ensures found <==> Present(Contents(), hash)
      ensures found ==> index < |entries| && Used(entries[index], emptyValue) && entries[index].hash == hash
    {
      hide Bag, Graves, Probe, IsPow2, Path;
      var iter;
      index, iter := ItMake(hash);
      found, index, iter := FindNext(hash, index, iter);
      if found {
        PresentWhenMatched(entries, emptyValue, hash, iter - 1);
      } else if |entries| > 0 {
        AbsentWhenUnmatched(entries, emptyValue, hash);
      } else {
        EmptyBag(entries, emptyValue);
      }
    }

    /** One call of the iteration protocol: `iter == 0` starts it, anything else moves past the last entry. */
    method Iterate(hash: nat, index0: nat, iter0: nat) returns (found: bool, index: nat, iter: nat)
      requires Valid() && (iter0 == 0 || (|entries| > 0 && At(hash, index0, iter0) && Match(entries, emptyValue, hash, iter0 - 1)))
      ensures found ==> |entries| > 0 && iter0 < iter <= |entries| && At(hash, index, iter) && Match(entries, emptyValue, hash, iter - 1)
      ensures found ==> forall j: nat | iter0 <= j < iter - 1 :: !Match(entries, emptyValue, hash, j)
      ensures !found ==> NoneFrom(hash, iter0)
    {
      hide Bag, Graves, AllReachable, Masked, Probe, IsPow2;
      if iter0 == 0 {
        index, iter := ItMake(hash);
      } else {
        NextProbe(hash, |entries|, iter0 - 1);
        index := Masked(index0 + iter0, |entries|);
        iter := iter0 + 1;
      }
      found, index, iter := FindNext(hash, index, iter);
    }

    /** Iterating to the end yields the slot of every entry of the hash, each exactly once. */
    method IterateAll(hash: nat) returns (slots: seq<nat>)
      requires Valid()
      ensures forall i | 0 <= i < |entries| :: i in slots <==> Used(entries[i], emptyValue) && entries[i].hash == hash
      ensures forall i, j | 0 <= i < j < |slots| :: slots[i] != slots[j]
      ensures forall i | i in slots :: i < |entries|
    {
      hide Bag, Graves, Probe, IsPow2, AllReachable;
      slots := [];
      ghost var probes: seq<nat> := [];
      var found, index, iter := Iterate(hash, 0, 0);
      ghost var last := 0;
      while found
        invariant 0 <= last && |probes| == |slots| && Listed(entries, emptyValue, hash, probes, slots, last)
        invariant found ==> |entries| > 0 && last < iter <= |entries| && At(hash, index, iter) && Match(entries, emptyValue, hash, iter - 1)
        invariant found ==> forall j: nat | last <= j < iter - 1 :: !Match(entries, emptyValue, hash, j)
        invariant !found ==> NoneFrom(hash, last)
        decreases found, |entries| - last
      {
        slots := slots + [index];
        probes := probes + [iter - 1];
        last := iter;
        found, index, iter := Iterate(hash, index, iter);
      }
      ListedAll(entries, emptyValue, hash, probes, slots, last);
    }

    method Init(empty: nat)
      requires empty < WORD
      modifies this
      ensures Valid() && Contents() == multiset{} && emptyValue == empty
    {
      entries, count, gravestones, rehashedTimes := [], 0, 0, 0;
      emptyValue := empty;
    }

    /** Empties every slot; the capacity may just have been set. */
    method Clear()
      requires emptyValue < WORD && (|entries| == 0 || IsPow2(|entries|))
      modifies `entries, `count, `gravestones
      ensures Valid() && Contents() == multiset{} && |entries| == |old(entries)| && count == gravestones == 0
    {
      var blank := Entry(0, emptyValue);
      entries := seq(|entries|, _ => blank);
      count, gravestones := 0, 0;
      AllEmpty(entries, emptyValue);
    }

    /** Doubles from 16 until three quarters of the capacity hold what is required. */
    method NewCapacity(required: nat) returns (capacity: nat)
      ensures capacity >= 16 && IsPow2(capacity) && 4 * required <= 3 * capacity
      ensures capacity > 16 ==> 3 * (capacity / 2) < 4 * required
      ensures capacity == RehashTo(required, 16)
    {
      capacity := 16;
      ghost var m := 4;
      assert Pow2(4) == 16;
      while capacity * 3 / 4 < required
        invariant capacity >= 16 && capacity == Pow2(m) && (capacity > 16 ==> 3 * (capacity / 2) < 4 * required)
        invariant RehashTo(required, capacity) == RehashTo(required, 16)
        decreases 4 * required - 3 * capacity
      {
        capacity := capacity * 2;
        m := m + 1;
      }
    }

    /** Puts an entry into the first empty slot of its path, whatever its value means in this table. */
    method PlaceEntry(e: Entry) returns (i: nat)
      requires |entries| > 0 && IsPow2(|entries|) && AllReachable(entries, emptyValue)
      requires |Contents()| + Graves(entries, emptyValue) < |entries|
      modifies `entries
      ensures i < |old(entries)| && old(entries)[i].value == emptyValue && entries == old(entries)[i := e]
      ensures AllReachable(entries, emptyValue) && Contents() == old(Contents()) + One(e, emptyValue)
      ensures Graves(entries, emptyValue) == old(Graves(entries, emptyValue)) + Grave(e, emptyValue)
    {
      hide Bag, Graves, AllReachable, Masked, Probe, IsPow2;
      ghost var last := FirstEmpty(entries, emptyValue, e.hash);
      NextProbe(e.hash, |entries|, 0);
      i := Masked(e.hash, |entries|);
      var it := 1;
      while entries[i].value != emptyValue
        invariant entries == old(entries)
        invariant 0 < it <= last + 1 && i == Probe(e.hash, |entries|, it - 1) && Path(entries, emptyValue, e.hash, it - 1)
        decreases |entries| - it
      {
        NextProbe(e.hash, |entries|, it - 1);
        i := Masked(i + it, |entries|);
        it := it + 1;
      }
      StoreKeepsReachable(entries, emptyValue, i, e, it - 1);
      StoreOnEmpty(entries, emptyValue, i, e);
      entries := entries[i := e];
    }

    /** Refills this table with the entries of `source`, whose empty value is `empty`, setting the backlinks of their
        items with `withLinks`. The table is consistent exactly when none of them has a value reserved here. */
    method Refill(source: seq<Entry>, empty: nat, sourceCount: nat, withLinks: bool, links0: map<nat, nat>) returns (links: map<nat, nat>)
      requires emptyValue < WORD && IsPow2(|entries|) && sourceCount == |Bag(source, empty)|
      requires |entries| >= 16 && 4 * sourceCount <= 3 * |entries|
      modifies `entries, `count, `gravestones, `rehashedTimes
      ensures Valid() <==> AllUsable(Bag(source, empty), emptyValue)
      ensures Valid() ==> Contents() == Bag(source, empty) && (withLinks ==> Backlinked(entries, emptyValue, links))
      ensures gravestones == 0 && count == sourceCount && rehashedTimes == old(rehashedTimes) + 1
      ensures |entries| == |old(entries)|
      ensures !withLinks ==> links == links0
    {
      hide Bag, Graves, AllReachable, Masked, Probe, IsPow2, One, Backlinked, Filling, AllUsable;
      links := links0;
      Clear();
      FillingStart(source, empty, entries, emptyValue);
      ClearedLinks(entries, emptyValue, links);
      for j := 0 to |source|
        invariant gravestones == 0 && |entries| == |old(entries)| && rehashedTimes == old(rehashedTimes)
        invariant Filling(source, empty, j, entries, emptyValue)
        invariant withLinks && UsableBefore(source, empty, j, emptyValue) ==> Backlinked(entries, emptyValue, links)
        invariant !withLinks ==> links == links0
      {
        FillingRoom(source, empty, j, entries, emptyValue);
        if Used(source[j], empty) {
          ghost var before := entries;
          var i := PlaceEntry(source[j]);
          FillingStep(source, empty, j, before, emptyValue, i);
          if withLinks {
            if Used(source[j], emptyValue) && UsableBefore(source, empty, j, emptyValue) {
              LinkPlaced(before, emptyValue, links, i, source[j]);
            }
            links := links[source[j].value := i];
          }
        } else {
          FillingSkip(source, empty, j, entries, emptyValue);
        }
      }
      count := sourceCount;
      rehashedTimes := rehashedTimes + 1;
      FillingEnd(source, empty, entries, emptyValue);
    }

    /**
     Moves all entries of a table, possibly this one, into fresh slots. With `withLinks` the backlink of every item is
     set to the new slot of its entry; `links` maps the items, which are what the entries' values stand for. The result
     is consistent exactly when no entry has one of the two values that mean empty and gravestone in this table.
     */
    method CopyRehash(from: Hash, toSize: nat, withLinks: bool, links0: map<nat, nat>) returns (links: map<nat, nat>)
      requires Valid() && from.Valid()
      modifies this
      ensures Valid() <==> AllUsable(old(from.Contents()), emptyValue)
      ensures Valid() ==> Contents() == old(from.Contents()) && (withLinks ==> Backlinked(entries, emptyValue, links))
      ensures old(from.emptyValue == emptyValue) ==> Valid()
      ensures gravestones == 0 && count == old(from.count) && rehashedTimes == old(rehashedTimes) + 1
      ensures emptyValue == old(emptyValue) && |entries| >= 16 && 4 * toSize <= 3 * |entries|
      ensures var capacity := RehashTo(Required(old(from.count), old(from.gravestones), toSize), 16);
        |entries| == if this == from || capacity > |old(entries)| then capacity else |old(entries)|
      ensures !withLinks ==> links == links0
    {
      hide Bag, Graves, AllReachable, Masked, Probe, IsPow2, Backlinked, AllUsable;
      var source, empty, sourceCount := from.entries, from.emptyValue, from.count;
      UsableAtHome(source, empty);
      var required := if from.gravestones > from.count then from.count else from.gravestones + from.count;
      if required < toSize { required := toSize; }
      var capacity := NewCapacity(required);
      if this == from || capacity > |entries| {
        entries := seq(capacity, _ => Entry(0, 0));
      }
      links := Refill(source, empty, sourceCount, withLinks, links0);
    }

    /** Makes room for `toSize` entries. */
    method Reserve(toSize: nat)
      requires Valid()
      modifies this
      ensures Valid() && Contents() == old(Contents()) && emptyValue == old(emptyValue) && count == old(count)
      ensures |entries| > 0 && 4 * (toSize + gravestones) <= 3 * |entries|
      ensures |old(entries)| * 3 / 4 > toSize + old(gravestones) ==> entries == old(entries) && gravestones == old(gravestones)
    {
      hide Bag, Graves, AllReachable, IsPow2;
      if |entries| * 3 / 4 <= toSize + gravestones {
        var links := CopyRehash(this, toSize, false, map[]);
      }
    }

    /**
     Looks for a slot to store an entry of the hash. Unless `insertOnly`, an entry of the hash that is already there is
     found instead, and the last gravestone on the way is preferred to the empty slot.
     */
    method Slot(hash: nat, insertOnly: bool) returns (found: bool, index: nat, ghost k: nat, ghost end: nat)
      requires Valid() && |entries| > 0
      ensures index < |entries| && (found ==> !insertOnly)
      ensures found ==> Used(entries[index], emptyValue) && entries[index].hash == hash
      ensures !insertOnly ==> (found <==> Present(Contents(), hash))
      ensures !found ==> !Used(entries[index], emptyValue)
      ensures !found ==> k < |entries| && Probe(hash, |entries|, k) == index && Path(entries, emptyValue, hash, k)
      ensures !found && insertOnly ==> AllUsed(entries, emptyValue, hash, k)
      ensures !found && !insertOnly ==> k <= end && entries[Probe(hash, |entries|, end)].value == emptyValue
      ensures !found && !insertOnly ==> NoGraves(entries, emptyValue, hash, k + 1, end) && (k == end || entries[index].value == Gravestone(emptyValue))
      ensures !found && !insertOnly && k == end ==> NoGraves(entries, emptyValue, hash, 0, end)
    {
      hide Bag, Graves, AllReachable, Masked, Probe, IsPow2, Path, Match;
      ghost var last := FirstEmpty(entries, emptyValue, hash);
      NextProbe(hash, |entries|, 0);
      index := Masked(hash, |entries|);
      var emptyIndex := -1;
      ghost var grave := 0;
      var it := 1;
      NoPath(entries, emptyValue, hash);
      while true
        invariant 0 < it <= last + 1 && index == Probe(hash, |entries|, it - 1) && Path(entries, emptyValue, hash, it - 1)
        invariant !insertOnly ==> Unmatched(entries, emptyValue, hash, it - 1)
        invariant insertOnly ==> AllUsed(entries, emptyValue, hash, it - 1)
        invariant emptyIndex != -1 ==> grave < it - 1 && emptyIndex == Probe(hash, |entries|, grave)
        invariant emptyIndex != -1 ==> entries[emptyIndex].value == Gravestone(emptyValue)
        invariant !insertOnly ==> NoGraves(entries, emptyValue, hash, if emptyIndex == -1 then 0 else grave + 1, it - 1)
        decreases |entries| - it
      {
        k, end := it - 1, it - 1;
        PathStep(entries, emptyValue, hash, k, last);
        if insertOnly {
          if !Used(entries[index], emptyValue) { return false, index, k, end; }
        } else {
          if entries[index].value == emptyValue {
            UnmatchedIsAbsent(entries, emptyValue, hash, k);
            if emptyIndex != -1 {
              PathShorter(entries, emptyValue, hash, grave, k);
              index, k := emptyIndex, grave;
            }
            return false, index, k, end;
          }
          if entries[index].value == Gravestone(emptyValue) {
            emptyIndex, grave := index, k;
          } else if entries[index].hash == hash {
            FoundIsPresent(entries, emptyValue, hash, k);
            return true, index, k, end;
          }
        }
        NextProbe(hash, |entries|, it - 1);
        index := Masked(index + it, |entries|);
        it := it + 1;
      }
    }

    /** Adds an entry, unless one with the hash is already there and `insertOnly` is off. */
    method FindOrInsert(hash: nat, value: nat, insertOnly: bool) returns (inserted: bool, index: nat)
      requires Valid() && Used(Entry(hash, value), emptyValue)
      modifies this
      ensures Valid() && emptyValue == old(emptyValue) && index < |entries|
      ensures inserted <==> insertOnly || !Present(old(Contents()), hash)
      ensures inserted ==> Contents() == old(Contents()) + multiset{Entry(hash, value)} && entries[index] == Entry(hash, value)
      ensures !inserted ==> Contents() == old(Contents()) && Used(entries[index], emptyValue) && entries[index].hash == hash
    {
      hide Bag, Graves, AllReachable, Masked, Probe, IsPow2, Path;
      Reserve(count + 1);
      var found;
      ghost var k, end;
      found, index, k, end := Slot(hash, insertOnly);
      if found { return false, index; }
      StoreAdds(entries, emptyValue, count, gravestones, index, Entry(hash, value), k);
      if entries[index].value == Gravestone(emptyValue) { gravestones := gravestones - 1; }
      entries := entries[index := Entry(hash, value)];
      count := count + 1;
      inserted := true;
    }

    /** Stores a value for the hash, in place of one such entry if there is any. */
    method Set(hash: nat, value: nat) returns (index: nat)
      requires Valid() && Used(Entry(hash, value), emptyValue)
      modifies this
      ensures Valid() && index < |entries| && entries[index] == Entry(hash, value)
      ensures !Present(old(Contents()), hash) ==> Contents() == old(Contents()) + multiset{Entry(hash, value)}
      ensures Present(old(Contents()), hash) ==> exists v: nat ::
        Entry(hash, v) in old(Contents()) && Contents() == old(Contents()) - multiset{Entry(hash, v)} + multiset{Entry(hash, value)}
    {
      hide Bag, Graves, AllReachable, Masked, Probe, IsPow2, Path;
      var inserted;
      inserted, index := FindOrInsert(hash, value, false);
      if !inserted {
        ghost var was := entries[index];
        UsedInBag(entries, emptyValue, index);
        OverwriteSwaps(entries, emptyValue, count, gravestones, index, value);
        entries := entries[index := entries[index].(value := value)];
        assert was == Entry(hash, was.value);
      }
    }

    /**
     Turns the slot at a found index into a gravestone; an index out of range is refused. The table stays consistent
     exactly when the slot held an entry.
     */
    method Remove(found: int) returns (removed: bool)
      requires Valid() && (0 <= found < |entries| ==> count > 0)
      modifies `entries, `count, `gravestones
      ensures removed <==> 0 <= found < |old(entries)|
      ensures removed ==> (Valid() <==> old(Used(entries[found], emptyValue)))
      ensures removed && old(Used(entries[found], emptyValue)) ==> Contents() + multiset{old(entries)[found]} == old(Contents())
      ensures removed ==> entries == old(entries)[found := old(entries)[found].(value := Gravestone(emptyValue))] && count == old(count) - 1
      ensures !removed ==> Valid() && Contents() == old(Contents()) && entries == old(entries)
    {
      hide Bag, Graves, AllReachable, Masked, Probe, IsPow2, Path;
      removed := 0 <= found < |entries|;
      if removed {
        BuryOnlyEntries(entries, emptyValue, count, gravestones, found);
        entries := entries[found := entries[found].(value := Gravestone(emptyValue))];
        count := count - 1;
        gravestones := gravestones + 1;
      }
    }

    /** Removes every entry of a hash and tells how many there were. */
    method RemoveWithHash(hash: nat) returns (n: nat)
      requires Valid()
      modifies `entries, `count, `gravestones
      ensures Valid() && !Present(Contents(), hash) && n == |old(Contents())| - |Contents()|
      ensures Fewer(Contents(), old(Contents()), hash)
    {
      hide Bag, Graves, AllReachable, Masked, Probe, IsPow2, Path, Match;
      n := 0;
      var index, iter := ItMake(hash);
      var found;
      found, index, iter := FindNext(hash, index, iter);
      while found
        invariant Valid() && |entries| == |old(entries)| && n == |old(Contents())| - |Contents()|
        invariant Fewer(Contents(), old(Contents()), hash)
        invariant found ==> |entries| > 0 && At(hash, index, iter) && Match(entries, emptyValue, hash, iter - 1)
        invariant found ==> forall j: nat | j < iter - 1 :: !Match(entries, emptyValue, hash, j)
        invariant !found ==> NoneFrom(hash, 0)
        decreases count
      {
        MatchIsUsed(entries, emptyValue, hash, iter - 1);
        UsedInBag(entries, emptyValue, index);
        AfterBury(entries, emptyValue, hash, iter);
        OneFewer(entries[index], old(Contents()), hash);
        var removed := Remove(index);
        n := n + 1;
        found, index, iter := FindNext(hash, index, iter);
      }
      if |entries| > 0 {
        AbsentWhenUnmatched(entries, emptyValue, hash);
      } else {
        EmptyBag(entries, emptyValue);
      }
    }
  }

  lemma EndOfPath(s: seq<Entry>, empty: nat, hash: nat, k: nat)
    requires |s| > 0 && s[Probe(hash, |s|, k)].value == empty
    ensures forall j: nat | k <= j && Path(s, empty, hash, j) :: !Match(s, empty, hash, j)
  {
  }

  lemma NothingMatches(s: seq<Entry>, empty: nat, hash: nat)
    requires |s| > 0 && |Bag(s, empty)| == 0
    ensures forall j: nat :: !Match(s, empty, hash, j)
  {
    forall j: nat ensures !Match(s, empty, hash, j) {
      if Match(s, empty, hash, j) { UsedInBag(s, empty, Probe(hash, |s|, j)); }
    }
  }

  lemma EmptyBag(s: seq<Entry>, empty: nat)
    requires |s| == 0
    ensures Bag(s, empty) == multiset{}
  {
  }

  /** `slots` holds the matches among the first `last` probes, in probing order. */
  ghost predicate Listed(s: seq<Entry>, empty: nat, hash: nat, probes: seq<nat>, slots: seq<nat>, last: nat)
    requires |probes| == |slots|
  {
    && (slots != [] ==> |s| > 0)
    && (forall x | 0 <= x < |slots| :: |s| > 0 && probes[x] < last <= |s| && slots[x] == Probe(hash, |s|, probes[x]) && Match(s, empty, hash, probes[x]))
    && (forall x, y | 0 <= x < y < |slots| :: probes[x] < probes[y])
    && (|s| > 0 ==> forall j: nat | j < last && Match(s, empty, hash, j) :: j in probes)
  }

  lemma ListedAll(s: seq<Entry>, empty: nat, hash: nat, probes: seq<nat>, slots: seq<nat>, last: nat)
    requires |probes| == |slots| && Listed(s, empty, hash, probes, slots, last) && AllReachable(s, empty)
    requires |s| == 0 || IsPow2(|s|)
    requires |s| > 0 ==> forall j: nat | last <= j < |s| && Path(s, empty, hash, j) :: !Match(s, empty, hash, j)
    ensures forall i | 0 <= i < |s| :: i in slots <==> Used(s[i], empty) && s[i].hash == hash
    ensures forall x, y | 0 <= x < y < |slots| :: slots[x] != slots[y]
    ensures forall i | i in slots :: i < |s|
  {
    hide Probe, AllReachable, Pow2;
    forall i: nat | i < |s| && Used(s[i], empty) && s[i].hash == hash ensures i in slots {
      var k := WhereEntryIs(s, empty, i);
      assert k in probes;
      var x :| 0 <= x < |probes| && probes[x] == k;
      assert slots[x] == i;
    }
    forall x, y | 0 <= x < y < |slots| ensures slots[x] != slots[y] {
      var m: nat :| |s| == Pow2(m);
      assert probes[x] < probes[y];
      ProbesDiffer(hash, m, probes[x], probes[y]);
    }
  }

  /** Every value's backlink is the slot of an entry with that value. */
  ghost predicate Backlinked(s: seq<Entry>, empty: nat, links: map<nat, nat>) {
    forall i | 0 <= i < |s| && Used(s[i], empty) ::
      s[i].value in links && links[s[i].value] < |s| && Used(s[links[s[i].value]], empty) && s[links[s[i].value]].value == s[i].value
  }

  /** When no two entries share a value, each item's backlink is its entry's slot. */
  lemma BacklinksAreSlots(s: seq<Entry>, empty: nat, links: map<nat, nat>)
    requires Backlinked(s, empty, links)
    requires forall i, j | 0 <= i < j < |s| && Used(s[i], empty) && Used(s[j], empty) :: s[i].value != s[j].value
    ensures forall i | 0 <= i < |s| && Used(s[i], empty) :: s[i].value in links && links[s[i].value] == i
  {
    forall i | 0 <= i < |s| && Used(s[i], empty) ensures links[s[i].value] == i {
      assert s[links[s[i].value]].value == s[i].value;
    }
  }

  lemma LinkPlaced(s: seq<Entry>, empty: nat, links: map<nat, nat>, i: nat, e: Entry)
    requires Backlinked(s, empty, links) && i < |s| && !Used(s[i], empty) && Used(e, empty)
    ensures Backlinked(s[i := e], empty, links[e.value := i])
  {
  }

  lemma ClearedLinks(s: seq<Entry>, empty: nat, links: map<nat, nat>)
    requires Bag(s, empty) == multiset{}
    ensures Backlinked(s, empty, links)
  {
    forall i | 0 <= i < |s| ensures !Used(s[i], empty) {
      if Used(s[i], empty) { UsedInBag(s, empty, i); }
    }
  }

  lemma BagStep(s: seq<Entry>, empty: nat, j: nat)
    requires j < |s|
    ensures Bag(s[..j + 1], empty) == Bag(s[..j], empty) + One(s[j], empty)
  {
    assert s[..j + 1][..j] == s[..j];
  }

  lemma {:induction false} WholeBag(s: seq<Entry>, empty: nat, j: nat)
    requires j <= |s|
    ensures |Bag(s[..j], empty)| <= |Bag(s, empty)|
    decreases |s| - j
  {
    if j == |s| {
      assert s[..j] == s;
    } else {
      BagStep(s, empty, j);
      WholeBag(s, empty, j + 1);
    }
  }

  lemma StoreOnEmpty(s: seq<Entry>, empty: nat, i: nat, e: Entry)
    requires i < |s| && s[i].value == empty
    ensures Bag(s[i := e], empty) == Bag(s, empty) + One(e, empty)
    ensures Graves(s[i := e], empty) == Graves(s, empty) + Grave(e, empty)
  {
    hide Bag, Graves;
    Replace(s, empty, i, e);
    assert One(s[i], empty) == multiset{};
    assert Bag(s[i := e], empty) + multiset{} == Bag(s[i := e], empty);
  }

  /** No entry has a value that means empty or gravestone. */
  ghost predicate AllUsable(bag: multiset<Entry>, empty: nat) {
    forall e :: e in bag ==> Used(e, empty)
  }

  lemma UsableAtHome(s: seq<Entry>, empty: nat)
    ensures AllUsable(Bag(s, empty), empty)
  {
    forall e | e in Bag(s, empty) ensures Used(e, empty) {
      var i := InBag(s, empty, e);
    }
  }

  /** None of the first `j` entries of a table has a value reserved in another. */
  ghost predicate UsableBefore(source: seq<Entry>, from: nat, j: nat, to: nat) {
    forall k | 0 <= k < j && k < |source| && Used(source[k], from) :: Used(source[k], to)
  }

  /** The table `s` after the first `j` entries of `source` were placed in it. An entry with a reserved value takes a
      slot at most, and is missing in the multiset. */
  ghost predicate Filling(source: seq<Entry>, from: nat, j: nat, s: seq<Entry>, to: nat) {
    && j <= |source| && |s| > 0 && IsPow2(|s|) && AllReachable(s, to)
    && |Bag(s, to)| + Graves(s, to) <= |Bag(source[..j], from)|
    && (UsableBefore(source, from, j, to) ==> Bag(s, to) == Bag(source[..j], from))
    && (!UsableBefore(source, from, j, to) ==> |Bag(s, to)| < |Bag(source[..j], from)|)
  }

  lemma FillingStart(source: seq<Entry>, from: nat, s: seq<Entry>, to: nat)
    requires |s| > 0 && IsPow2(|s|) && AllReachable(s, to) && Bag(s, to) == multiset{} && Graves(s, to) == 0
    ensures Filling(source, from, 0, s, to)
  {
    hide AllReachable, IsPow2;
    EmptyBag(source[..0], from);
  }

  lemma FillingRoom(source: seq<Entry>, from: nat, j: nat, s: seq<Entry>, to: nat)
    requires Filling(source, from, j, s, to) && j < |source| && 4 * |Bag(source, from)| <= 3 * |s|
    ensures |s| > 0 && IsPow2(|s|) && AllReachable(s, to)
    ensures |Bag(s, to)| + Graves(s, to) < |s|
  {
    hide AllReachable, IsPow2, Bag, Graves;
    WholeBag(source, from, j);
  }

  lemma FillingStep(source: seq<Entry>, from: nat, j: nat, s: seq<Entry>, to: nat, i: nat)
    requires Filling(source, from, j, s, to) && j < |source| && Used(source[j], from)
    requires i < |s| && s[i].value == to && AllReachable(s[i := source[j]], to)
    ensures Filling(source, from, j + 1, s[i := source[j]], to)
  {
    hide AllReachable, IsPow2, Bag, Graves;
    BagStep(source, from, j);
    StoreOnEmpty(s, to, i, source[j]);
  }

  lemma FillingSkip(source: seq<Entry>, from: nat, j: nat, s: seq<Entry>, to: nat)
    requires Filling(source, from, j, s, to) && j < |source| && !Used(source[j], from)
    ensures Filling(source, from, j + 1, s, to)
    ensures UsableBefore(source, from, j + 1, to) == UsableBefore(source, from, j, to)
  {
    hide AllReachable, IsPow2, Bag, Graves;
    BagStep(source, from, j);
  }

  lemma FillingEnd(source: seq<Entry>, from: nat, s: seq<Entry>, to: nat)
    requires Filling(source, from, |source|, s, to) && 4 * |Bag(source, from)| <= 3 * |s| && to < WORD
    ensures UsableBefore(source, from, |source|, to) <==> AllUsable(Bag(source, from), to)
    ensures TableOk(s, to, |Bag(source, from)|, 0) <==> AllUsable(Bag(source, from), to)
    ensures AllUsable(Bag(source, from), to) ==> Bag(s, to) == Bag(source, from)
  {
    hide AllReachable, IsPow2, Bag, Graves;
    assert source[..|source|] == source;
    forall e | e in Bag(source, from) && UsableBefore(source, from, |source|, to) ensures Used(e, to) {
      var i := InBag(source, from, e);
    }
    forall k | 0 <= k < |source| && Used(source[k], from) ensures source[k] in Bag(source, from) {
      UsedInBag(source, from, k);
    }
  }

  /** Overwriting the value of an entry replaces that one entry. */
  lemma OverwriteSwaps(s: seq<Entry>, empty: nat, count: nat, graves: nat, i: nat, value: nat)
    requires TableOk(s, empty, count, graves) && i < |s| && Used(s[i], empty) && Used(s[i].(value := value), empty)
    ensures var t := s[i := s[i].(value := value)];
      && Bag(t, empty) == Bag(s, empty) - multiset{s[i]} + multiset{s[i].(value := value)} && TableOk(t, empty, count, graves)
  {
    hide Bag, Graves, AllReachable, Masked, Probe, Path;
    var e := s[i].(value := value);
    UsedInBag(s, empty, i);
    var k := WhereEntryIs(s, empty, i);
    StoreKeepsReachable(s, empty, i, e, k);
    Replace(s, empty, i, e);
    Swap(Bag(s[i := e], empty), Bag(s, empty), s[i], e);
  }

  lemma Swap(a: multiset<Entry>, b: multiset<Entry>, x: Entry, y: Entry)
    requires a + multiset{x} == b + multiset{y} && x in b
    ensures a == b - multiset{x} + multiset{y}
  {
    assert a == (a + multiset{x}) - multiset{x};
    assert (b + multiset{y}) - multiset{x} == b - multiset{x} + multiset{y};
  }

  /** `a` lacks some entries of the hash that `b` has, and nothing else. */
  ghost predicate Fewer(a: multiset<Entry>, b: multiset<Entry>, hash: nat) {
    a <= b && forall e: Entry | e.hash != hash :: a[e] == b[e]
  }

  lemma OneFewer(x: Entry, all: multiset<Entry>, hash: nat)
    requires x.hash == hash
    ensures forall a: multiset<Entry> | Fewer(a + multiset{x}, all, hash) :: Fewer(a, all, hash)
  {
    forall a: multiset<Entry> | Fewer(a + multiset{x}, all, hash) ensures Fewer(a, all, hash) {
      assert a <= a + multiset{x};
    }
  }

  lemma MatchIsUsed(s: seq<Entry>, empty: nat, hash: nat, k: nat)
    requires |s| > 0 && Match(s, empty, hash, k)
    ensures var i := Probe(hash, |s|, k); Used(s[i], empty) && s[i].hash == hash
  {
  }

  /** A buried entry no longer matches, and the path to it stays. */
  lemma AfterBury(s: seq<Entry>, empty: nat, hash: nat, iter: nat)
    requires |s| > 0 && iter > 0 && empty < WORD && Path(s, empty, hash, iter - 1) && forall j: nat | j < iter - 1 :: !Match(s, empty, hash, j)
    ensures var i := Probe(hash, |s|, iter - 1); var t := s[i := s[i].(value := Gravestone(empty))];
      Path(t, empty, hash, iter - 1) && forall j: nat | j < iter :: !Match(t, empty, hash, j)
  {
    hide Probe;
    var i := Probe(hash, |s|, iter - 1);
    var t := s[i := s[i].(value := Gravestone(empty))];
    forall j: nat | j < iter ensures !Match(t, empty, hash, j) {
      assert j < iter - 1 ==> !Match(s, empty, hash, j);
      assert Probe(hash, |t|, j) == Probe(hash, |s|, j);
    }
    forall j: nat | j < iter - 1 ensures t[Probe(hash, |t|, j)].value != empty {
      assert s[Probe(hash, |s|, j)].value != empty;
    }
  }

  // ---- steps of the search for a slot ----

  ghost predicate Unmatched(s: seq<Entry>, empty: nat, hash: nat, k: nat)
    requires |s| > 0
  {
    forall j: nat | j < k :: !Match(s, empty, hash, j)
  }

  ghost predicate AllUsed(s: seq<Entry>, empty: nat, hash: nat, k: nat)
    requires |s| > 0
  {
    forall j: nat | j < k :: Used(s[Probe(hash, |s|, j)], empty)
  }

  ghost predicate NoGraves(s: seq<Entry>, empty: nat, hash: nat, from: nat, to: nat)
    requires |s| > 0
  {
    forall j: nat | from <= j < to :: s[Probe(hash, |s|, j)].value != Gravestone(empty)
  }

  lemma NoPath(s: seq<Entry>, empty: nat, hash: nat)
    requires |s| > 0
    ensures Path(s, empty, hash, 0)
  {
  }

  lemma PathStep(s: seq<Entry>, empty: nat, hash: nat, k: nat, last: nat)
    requires |s| > 0 && Path(s, empty, hash, k) && k <= last < |s| && s[Probe(hash, |s|, last)].value == empty
    ensures var e := s[Probe(hash, |s|, k)];
      && (e.value != empty ==> Path(s, empty, hash, k + 1) && k < last)
      && (!(Used(e, empty) && e.hash == hash) ==> !Match(s, empty, hash, k))
  {
    hide Probe;
  }

  lemma PathShorter(s: seq<Entry>, empty: nat, hash: nat, j: nat, k: nat)
    requires |s| > 0 && Path(s, empty, hash, k) && j <= k
    ensures Path(s, empty, hash, j)
  {
  }

  lemma UnmatchedIsAbsent(s: seq<Entry>, empty: nat, hash: nat, k: nat)
    requires |s| > 0 && AllReachable(s, empty) && Unmatched(s, empty, hash, k) && s[Probe(hash, |s|, k)].value == empty
    ensures !Present(Bag(s, empty), hash)
  {
    hide Probe, AllReachable, Bag;
    EndOfPath(s, empty, hash, k);
    AbsentWhenUnmatched(s, empty, hash);
  }

  lemma FoundIsPresent(s: seq<Entry>, empty: nat, hash: nat, k: nat)
    requires |s| > 0 && Used(s[Probe(hash, |s|, k)], empty) && s[Probe(hash, |s|, k)].hash == hash
    ensures Present(Bag(s, empty), hash)
  {
    hide Probe, Bag;
    PresentWhenMatched(s, empty, hash, k);
  }
}
