/**
 The contents of an open-addressing table and the invariant that makes probing complete.
 */
module HashTable {
  import opened Arith
  import opened HashProbe

  const WORD: nat := 0x1_0000_0000_0000_0000

  datatype Entry = Entry(hash: nat, value: nat)

  /** The value that marks a removed entry follows the one that marks an empty slot. */
  function Gravestone(empty: nat): nat {
    (empty + 1) % WORD
  }

  predicate Used(e: Entry, empty: nat) {
    e.value != empty && e.value != Gravestone(empty)
  }

  ghost function One(e: Entry, empty: nat): multiset<Entry> {
    if Used(e, empty) then multiset{e} else multiset{}
  }

  /** The entries a table stands for. */
  ghost function Bag(s: seq<Entry>, empty: nat): multiset<Entry> {
    if s == [] then multiset{} else Bag(s[..|s| - 1], empty) + One(s[|s| - 1], empty)
  }

  ghost function Grave(e: Entry, empty: nat): nat {
    if e.value == Gravestone(empty) then 1 else 0
  }

  ghost function Graves(s: seq<Entry>, empty: nat): nat {
    if s == [] then 0 else Graves(s[..|s| - 1], empty) + Grave(s[|s| - 1], empty)
  }

  lemma AddToBoth(a: multiset<Entry>, b: multiset<Entry>, c: multiset<Entry>, d: multiset<Entry>, x: multiset<Entry>)
    requires a + b == c + d
    ensures (a + x) + b == (c + x) + d
  {
    assert (a + x) + b == (a + b) + x && (c + x) + d == (c + d) + x;
  }

  /** Replacing one slot replaces one entry. */
  lemma {:induction false} Replace(s: seq<Entry>, empty: nat, i: nat, e: Entry)
    requires i < |s|
    ensures Bag(s[i := e], empty) + One(s[i], empty) == Bag(s, empty) + One(e, empty)
    ensures Graves(s[i := e], empty) + Grave(s[i], empty) == Graves(s, empty) + Grave(e, empty)
  {
    hide One, Grave;
    var last := |s| - 1;
    if i == last {
      assert s[i := e][..last] == s[..last];
      AddToBoth(multiset{}, One(e, empty) + One(s[i], empty), multiset{}, One(s[i], empty) + One(e, empty), Bag(s[..last], empty));
    } else {
      assert s[i := e][..last] == s[..last][i := e];
      Replace(s[..last], empty, i, e);
      AddToBoth(Bag(s[..last][i := e], empty), One(s[i], empty), Bag(s[..last], empty), One(e, empty), One(s[last], empty));
    }
  }

  lemma {:induction false} InBag(s: seq<Entry>, empty: nat, e: Entry) returns (i: nat)
    requires e in Bag(s, empty)
    ensures i < |s| && s[i] == e && Used(e, empty)
  {
    var last := |s| - 1;
    if Used(s[last], empty) && s[last] == e { i := last; } else { i := InBag(s[..last], empty, e); }
  }

  lemma {:induction false} UsedInBag(s: seq<Entry>, empty: nat, i: nat)
    requires i < |s| && Used(s[i], empty)
    ensures s[i] in Bag(s, empty)
  {
    if i < |s| - 1 { UsedInBag(s[..|s| - 1], empty, i); }
  }

  /** Used entries and gravestones that do not fill the table leave an empty slot. */
  lemma {:induction false} EmptySlot(s: seq<Entry>, empty: nat) returns (i: nat)
    requires |Bag(s, empty)| + Graves(s, empty) < |s|
    ensures i < |s| && s[i].value == empty
  {
    var last := |s| - 1;
    if s[last].value == empty { i := last; } else { i := EmptySlot(s[..last], empty); }
  }

  lemma {:induction false} AllEmpty(s: seq<Entry>, empty: nat)
    requires empty < WORD && forall i | 0 <= i < |s| :: s[i].value == empty
    ensures Bag(s, empty) == multiset{} && Graves(s, empty) == 0
  {
    if s != [] { AllEmpty(s[..|s| - 1], empty); }
  }

  // ---- reachability ----

  /** The first `k` probes for a hash all meet slots that are or were in use. */
  ghost predicate Path(s: seq<Entry>, empty: nat, hash: nat, k: nat)
    requires |s| > 0
  {
    forall j: nat | j < k :: s[Probe(hash, |s|, j)].value != empty
  }

  ghost predicate IsPow2(c: nat) {
    exists m: nat :: c == Pow2(m)
  }

  /** A used slot is met by probing for its hash before any empty slot. */
  ghost predicate Reachable(s: seq<Entry>, empty: nat, i: nat)
    requires i < |s|
  {
    exists k: nat :: k < |s| && Probe(s[i].hash, |s|, k) == i && Path(s, empty, s[i].hash, k)
  }

  ghost predicate AllReachable(s: seq<Entry>, empty: nat) {
    forall i | 0 <= i < |s| && Used(s[i], empty) :: Reachable(s, empty, i)
  }

  ghost predicate TableOk(s: seq<Entry>, empty: nat, count: nat, graves: nat) {
    && empty < WORD && (|s| == 0 || IsPow2(|s|)) && AllReachable(s, empty)
    && count == |Bag(s, empty)| && graves == Graves(s, empty)
    && 4 * (count + graves) <= 3 * |s|
  }

  /** The `k`-th probe meets an entry with the hash. */
  predicate Match(s: seq<Entry>, empty: nat, hash: nat, k: nat)
    requires |s| > 0
  {
    var e := s[Probe(hash, |s|, k)];
    Used(e, empty) && e.hash == hash
  }

  ghost predicate Present(bag: multiset<Entry>, hash: nat) {
    exists e: Entry :: e in bag && e.hash == hash
  }

  /** Every entry of a hash is a match of some probe before the first empty slot. */
  lemma WhereEntryIs(s: seq<Entry>, empty: nat, i: nat) returns (k: nat)
    requires i < |s| && AllReachable(s, empty) && Used(s[i], empty)
    ensures k < |s| && Probe(s[i].hash, |s|, k) == i && Path(s, empty, s[i].hash, k) && Match(s, empty, s[i].hash, k)
  {
    assert Reachable(s, empty, i);
    k :| k < |s| && Probe(s[i].hash, |s|, k) == i && Path(s, empty, s[i].hash, k);
  }

  /** Probing for any hash meets an empty slot within `capacity` steps. */
  lemma FirstEmpty(s: seq<Entry>, empty: nat, hash: nat) returns (k: nat)
    requires |s| > 0 && IsPow2(|s|) && |Bag(s, empty)| + Graves(s, empty) < |s|
    ensures k < |s| && s[Probe(hash, |s|, k)].value == empty
  {
    var i := EmptySlot(s, empty);
    var m: nat :| |s| == Pow2(m);
    k := EverySlotProbed(hash, m, i);
  }

  /** No match on the way to the first empty slot means the hash is absent. */
  lemma AbsentWhenUnmatched(s: seq<Entry>, empty: nat, hash: nat)
    requires |s| > 0 && AllReachable(s, empty)
    requires forall k: nat | k < |s| && Path(s, empty, hash, k) :: !Match(s, empty, hash, k)
    ensures !Present(Bag(s, empty), hash)
  {
    if e: Entry :| e in Bag(s, empty) && e.hash == hash {
      var i := InBag(s, empty, e);
      var k := WhereEntryIs(s, empty, i);
    }
  }

  lemma PresentWhenMatched(s: seq<Entry>, empty: nat, hash: nat, k: nat)
    requires |s| > 0 && Match(s, empty, hash, k)
    ensures Present(Bag(s, empty), hash)
  {
    UsedInBag(s, empty, Probe(hash, |s|, k));
  }

  /** Storing into a slot keeps every other path, as long as no slot becomes empty. */
  lemma StoreKeepsReachable(s: seq<Entry>, empty: nat, i: nat, e: Entry, k: nat)
    requires i < |s| && AllReachable(s, empty) && (e.value != empty || s[i].value == empty)
    requires Used(e, empty) ==> k < |s| && Probe(e.hash, |s|, k) == i && Path(s, empty, e.hash, k)
    ensures AllReachable(s[i := e], empty)
  {
    hide Probe;
    var t := s[i := e];
    forall x: nat | x < |t| && Used(t[x], empty) ensures Reachable(t, empty, x) {
      var n: nat;
      if x == i { n := k; } else { n := WhereEntryIs(s, empty, x); }
      assert n < |t| && Probe(t[x].hash, |t|, n) == x && Path(t, empty, t[x].hash, n);
    }
  }
}
