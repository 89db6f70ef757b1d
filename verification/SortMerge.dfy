/**
 Merging, bottom-up merge sort between two buffers, and binary search.
 */
module SortMerge {
  import opened SortOrder
  import opened SortInsertion

  // ---- merging two sorted stretches ----

  /** A source stretch: `count` items of `s` from `at` on, the first `taken` of which are merged. */
  datatype Source = Source(s: seq<Item>, at: nat, count: nat, taken: nat)

  ghost predicate SourceOk(less: Less, c: Source) {
    c.taken <= c.count && c.at + c.count <= |c.s| && Sorted(less, c.s, c.at, c.at + c.count)
  }

  ghost predicate AboveAll(less: Less, out: seq<Item>, lo: nat, hi: nat, c: Source)
    requires hi <= |out| && c.at + c.count <= |c.s|
  {
    forall p, q | lo <= p < hi && c.at + c.taken <= q < c.at + c.count :: Le(less, out[p], c.s[q])
  }

  ghost function Taken(c: Source): multiset<Item>
    requires c.taken <= c.count && c.at + c.count <= |c.s|
  {
    multiset(c.s[c.at..c.at + c.taken])
  }

  /** The output from `lo` on holds what was taken, in order, and nothing above what is left. */
  ghost predicate Merging(less: Less, out: seq<Item>, lo: nat, c: Source, d: Source) {
    && SourceOk(less, c) && SourceOk(less, d)
    && var hi := lo + c.taken + d.taken;
    && hi <= |out| && Sorted(less, out, lo, hi) && multiset(out[lo..hi]) == Taken(c) + Taken(d)
    && AboveAll(less, out, lo, hi, c) && AboveAll(less, out, lo, hi, d)
  }

  lemma TakenMore(c: Source)
    requires c.taken < c.count && c.at + c.count <= |c.s|
    ensures Taken(c.(taken := c.taken + 1)) == Taken(c) + multiset{c.s[c.at + c.taken]}
  {
    assert c.s[c.at..c.at + (c.taken + 1)] == c.s[c.at..c.at + c.taken] + [c.s[c.at + c.taken]];
  }

  lemma StepBag(out: seq<Item>, lo: nat, hi: nat, c: Source, d: Source)
    requires c.taken < c.count && c.at + c.count <= |c.s| && d.taken <= d.count && d.at + d.count <= |d.s|
    requires lo <= hi < |out| && multiset(out[lo..hi]) == Taken(c) + Taken(d)
    ensures var x := c.s[c.at + c.taken]; multiset(out[hi := x][lo..hi + 1]) == Taken(c.(taken := c.taken + 1)) + Taken(d)
  {
    hide Taken;
    var x := c.s[c.at + c.taken];
    TakenMore(c);
    assert out[hi := x][lo..hi + 1] == out[lo..hi] + [x];
  }

  lemma StepOrder(less: Less, out: seq<Item>, lo: nat, hi: nat, c: Source, d: Source)
    requires StrictWeak(less) && SourceOk(less, c) && SourceOk(less, d) && lo <= hi < |out| && c.taken < c.count
    requires Sorted(less, out, lo, hi) && AboveAll(less, out, lo, hi, c) && AboveAll(less, out, lo, hi, d)
    requires d.taken < d.count ==> Le(less, c.s[c.at + c.taken], d.s[d.at + d.taken])
    ensures var t := out[hi := c.s[c.at + c.taken]];
      Sorted(less, t, lo, hi + 1) && AboveAll(less, t, lo, hi + 1, c.(taken := c.taken + 1)) && AboveAll(less, t, lo, hi + 1, d)
  {
    hide StrictWeak;
    var x := c.s[c.at + c.taken];
    forall q | d.at + d.taken <= q < d.at + d.count ensures Le(less, x, d.s[q]) {
      if q > d.at + d.taken { LeTrans(less, x, d.s[d.at + d.taken], d.s[q]); }
    }
  }

  /** Taking the smaller of the two next items keeps the merge going. */
  lemma MergeStep(less: Less, out: seq<Item>, lo: nat, c: Source, d: Source)
    requires StrictWeak(less) && Merging(less, out, lo, c, d) && c.taken < c.count && lo + c.taken + d.taken < |out|
    requires d.taken < d.count ==> Le(less, c.s[c.at + c.taken], d.s[d.at + d.taken])
    ensures Merging(less, out[lo + c.taken + d.taken := c.s[c.at + c.taken]], lo, c.(taken := c.taken + 1), d)
  {
    hide StrictWeak, Sorted, AboveAll, Taken, Le;
    var hi := lo + c.taken + d.taken;
    StepBag(out, lo, hi, c, d);
    StepOrder(less, out, lo, hi, c, d);
    assert lo + (c.taken + 1) + d.taken == hi + 1;
  }

  lemma MergingSwap(less: Less, out: seq<Item>, lo: nat, c: Source, d: Source)
    requires Merging(less, out, lo, c, d)
    ensures Merging(less, out, lo, d, c)
  {
  }

  /** `after` is `before` with the two stretches merged in at `o`. */
  ghost predicate Merged(less: Less, before: seq<Item>, after: seq<Item>, o: nat, a: seq<Item>, x: nat, an: nat, b: seq<Item>, y: nat, bn: nat) {
    && x + an <= |a| && y + bn <= |b| && o + an + bn <= |after| && Sorted(less, after, o, o + an + bn)
    && multiset(after[o..o + an + bn]) == multiset(a[x..x + an]) + multiset(b[y..y + bn])
    && SameOutside(before, after, o, o + an + bn)
  }

  lemma MergeDone(less: Less, before: seq<Item>, out: seq<Item>, lo: nat, c: Source, d: Source)
    requires Merging(less, out, lo, c, d) && c.taken == c.count && d.taken == d.count
    requires SameOutside(before, out, lo, lo + c.count + d.count)
    ensures Merged(less, before, out, lo, c.s, c.at, c.count, d.s, d.at, d.count)
  {
    hide AboveAll, Sorted, SameOutside;
  }

  lemma MergeStart(less: Less, out: seq<Item>, lo: nat, c: Source, d: Source)
    requires SourceOk(less, c) && SourceOk(less, d) && c.taken == d.taken == 0 && lo <= |out|
    ensures Merging(less, out, lo, c, d)
  {
    assert out[lo..lo] == [] && c.s[c.at..c.at] == [] && d.s[d.at..d.at] == [];
  }

  /** Copying the rest of one source after the other is used up is the same as taking its items one by one. */
  lemma {:induction false} MergeRest(less: Less, out: seq<Item>, lo: nat, c: Source, d: Source, t: seq<Item>)
    requires StrictWeak(less) && Merging(less, out, lo, c, d) && d.taken == d.count && lo + c.count + d.count <= |out| == |t|
    requires var hi := lo + c.taken + d.taken;
      && (forall p | 0 <= p < hi :: t[p] == out[p])
      && (forall p | hi <= p < lo + c.count + d.count :: t[p] == c.s[c.at + c.taken + (p - hi)])
      && (forall p | lo + c.count + d.count <= p < |t| :: t[p] == out[p])
    ensures Merging(less, t, lo, c.(taken := c.count), d)
    decreases c.count - c.taken
  {
    hide StrictWeak, Merging;
    MergeFits(less, out, lo, c, d);
    if c.taken == c.count {
      assert t == out;
    } else {
      MergeStep(less, out, lo, c, d);
      MergeRest(less, out[lo + c.taken + d.taken := c.s[c.at + c.taken]], lo, c.(taken := c.taken + 1), d, t);
    }
  }

  lemma MergeFits(less: Less, out: seq<Item>, lo: nat, c: Source, d: Source)
    requires Merging(less, out, lo, c, d)
    ensures c.taken <= c.count && c.at + c.count <= |c.s| && d.taken <= d.count && d.at + d.count <= |d.s|
  {
  }

  ghost predicate SameOutside(s: seq<Item>, t: seq<Item>, lo: nat, hi: nat) {
    |s| == |t| && (forall p | 0 <= p < lo && p < |s| :: t[p] == s[p]) && (forall p | hi <= p < |s| :: t[p] == s[p])
  }

  /** Takes items while both stretches have some left. */
  method MergeBoth(output: array<Item>, o: nat, a: array<Item>, x: nat, an: nat, b: array<Item>, y: nat, bn: int, less: Less,
                   ghost c: Source, ghost d: Source)
    returns (ai: nat, bi: nat)
    requires StrictWeak(less) && output != a && output != b && x + an <= a.Length && y + bn <= b.Length
    requires d.count == (if bn < 0 then 0 else bn) && o + an + d.count <= output.Length
    requires c == Source(a[..], x, an, 0) && d == Source(b[..], d.at, d.count, 0) && (bn >= 0 ==> d.at == y)
    requires Merging(less, output[..], o, c, d)
    modifies output
    ensures ai <= an && bi <= d.count && (ai == an || bi == d.count) && (ai == an ==> bn >= 0 || an == 0)
    ensures Merging(less, output[..], o, c.(taken := ai), d.(taken := bi)) && SameOutside(old(output[..]), output[..], o, o + an + d.count)
  {
    hide StrictWeak, Merging, Le;
    ai, bi := 0, 0;
    while ai < an && bi < bn
      invariant 0 <= ai <= an && 0 <= bi <= d.count && Merging(less, output[..], o, c.(taken := ai), d.(taken := bi))
      invariant SameOutside(old(output[..]), output[..], o, o + an + d.count) && (ai == an ==> bn >= 0 || an == 0)
    {
      ghost var s := output[..];
      LessIsLe(less, a[x + ai], b[y + bi]);
      if less(a[x + ai], b[y + bi]) {
        MergeStep(less, s, o, c.(taken := ai), d.(taken := bi));
        output[o + ai + bi] := a[x + ai];
        assert output[..] == s[o + ai + bi := a[x + ai]];
        ai := ai + 1;
      } else {
        MergingSwap(less, s, o, c.(taken := ai), d.(taken := bi));
        MergeStep(less, s, o, d.(taken := bi), c.(taken := ai));
        output[o + ai + bi] := b[y + bi];
        assert output[..] == s[o + bi + ai := b[y + bi]];
        bi := bi + 1;
        MergingSwap(less, output[..], o, d.(taken := bi), c.(taken := ai));
      }
    }
  }

  /** Copies `count` items. */
  method CopyItems(output: array<Item>, o: nat, a: array<Item>, x: nat, count: nat)
    requires output != a && x + count <= a.Length && o + count <= output.Length
    modifies output
    ensures forall p | o <= p < o + count :: output[p] == a[x + (p - o)]
    ensures SameOutside(old(output[..]), output[..], o, o + count)
  {
    forall p | o <= p < o + count { output[p] := a[x + (p - o)]; }
  }

  /** Copies what is left of the first stretch after the second is used up. */
  method MergeTail(output: array<Item>, o: nat, a: array<Item>, x: nat, an: nat, ai: nat, bi: nat, less: Less, ghost c: Source, ghost d: Source)
    requires StrictWeak(less) && output != a && ai <= an && x + an <= a.Length && o + an + bi <= output.Length
    requires c == Source(a[..], x, an, ai) && d.taken == d.count == bi && Merging(less, output[..], o, c, d)
    modifies output
    ensures Merging(less, output[..], o, c.(taken := an), d) && SameOutside(old(output[..]), output[..], o, o + an + bi)
  {
    hide StrictWeak, Merging;
    ghost var s := output[..];
    CopyItems(output, o + ai + bi, a, x + ai, an - ai);
    forall p | o + ai + bi <= p < o + an + bi ensures output[..][p] == c.s[c.at + c.taken + (p - (o + ai + bi))] { }
    MergeRest(less, s, o, c, d, output[..]);
  }

  lemma SameOutsideTrans(s: seq<Item>, t: seq<Item>, u: seq<Item>, lo: nat, hi: nat)
    requires SameOutside(s, t, lo, hi) && SameOutside(t, u, lo, hi)
    ensures SameOutside(s, u, lo, hi)
  {
  }

  /**
   Merges `an` items of `a` from `x` on and `bn` of `b` from `y` on into `output` from `o` on. A negative `bn` stands for
   a second stretch that does not exist.
   */
  method MergeSorted(output: array<Item>, o: nat, a: array<Item>, x: nat, an: nat, b: array<Item>, y: nat, bn: int, less: Less)
    requires StrictWeak(less) && output != a && output != b && x + an <= a.Length && y + bn <= b.Length && (bn < 0 ==> an > 0)
    requires o + an + (if bn < 0 then 0 else bn) <= output.Length
    requires Sorted(less, a[..], x, x + an) && (bn >= 0 ==> Sorted(less, b[..], y, y + bn))
    modifies output
    ensures bn >= 0 ==> Merged(less, old(output[..]), output[..], o, a[..], x, an, b[..], y, bn)
    ensures bn < 0 ==> Merged(less, old(output[..]), output[..], o, a[..], x, an, b[..], 0, 0)
  {
    hide StrictWeak, Merging, Le, Sorted, SameOutside, Merged;
    ghost var n: nat, from: nat := if bn < 0 then 0 else bn, if bn < 0 then 0 else y;
    ghost var c, d := Source(a[..], x, an, 0), Source(b[..], from, n, 0);
    if bn < 0 { EmptySorted(less, d.s, 0); }
    MergeStart(less, output[..], o, c, d);
    var ai, bi := MergeBoth(output, o, a, x, an, b, y, bn, less, c, d);
    ghost var s := output[..];
    if ai < an {
      MergeTail(output, o, a, x, an, ai, bi, less, c.(taken := ai), d.(taken := bi));
    } else {
      MergingSwap(less, s, o, c.(taken := ai), d.(taken := bi));
      MergeTail(output, o, b, y, bn, bi, ai, less, d.(taken := bi), c.(taken := ai));
      MergingSwap(less, output[..], o, d.(taken := n), c.(taken := an));
    }
    SameOutsideTrans(old(output[..]), s, output[..], o, o + an + n);
    MergeDone(less, old(output[..]), output[..], o, c.(taken := an), d.(taken := n));
  }

  lemma EmptySorted(less: Less, s: seq<Item>, at: nat)
    requires at <= |s|
    ensures Sorted(less, s, at, at)
  {
  }

  lemma LessIsLe(less: Less, x: Item, y: Item)
    requires StrictWeak(less)
    ensures less(x, y) ==> Le(less, x, y)
    ensures !less(x, y) ==> Le(less, y, x)
  {
    if less(x, y) { LessLe(less, x, y); }
  }

  // ---- merge sort ----

  function Start(m: nat, width: nat): nat {
    m * width
  }

  function Upto(start: nat, width: nat, n: nat): nat {
    if start + width < n then start + width else n
  }

  /** The first `runs` stretches of `width` items are each sorted. */
  ghost predicate Runs(less: Less, s: seq<Item>, width: nat, runs: nat) {
    forall m: nat | m < runs && Start(m, width) < |s| :: Sorted(less, s, Start(m, width), Upto(Start(m, width), width, |s|))
  }

  lemma StartStep(m: nat, width: nat)
    ensures Start(0, width) == 0 && Start(m + 1, width) == Start(m, width) + width
    ensures Start(2 * m, width) == Start(m, 2 * width)
  {
  }

  lemma {:induction false} StartGrows(j: nat, m: nat, width: nat)
    requires j < m
    ensures Start(j, width) + width <= Start(m, width)
    decreases m
  {
    StartStep(m - 1, width);
    if j < m - 1 { StartGrows(j, m - 1, width); }
  }

  lemma RunSorted(less: Less, s: seq<Item>, t: seq<Item>, width: nat, m: nat, hi: nat)
    requires width > 0 && Start(m, width) < |s| == |t| && hi == Upto(Start(m, width), width, |s|)
    requires Runs(less, s, width, m) && Sorted(less, t, Start(m, width), hi)
    requires forall p | 0 <= p < |s| && (p < Start(m, width) || p >= hi) :: t[p] == s[p]
    ensures Runs(less, t, width, m + 1)
  {
    hide Start;
    forall j: nat | j < m + 1 && Start(j, width) < |t|
      ensures Sorted(less, t, Start(j, width), Upto(Start(j, width), width, |t|))
    {
      if j < m { StartGrows(j, m, width); }
    }
  }

  /** Insertion sorts every block of 32 items. */
  method SortBlocks(a: array<Item>, width: nat, less: Less) returns (ghost runs: nat)
    requires StrictWeak(less) && width > 0
    modifies a
    ensures Runs(less, a[..], width, runs) && Start(runs, width) >= a.Length && Rearranged(old(a[..]), a[..], 0, a.Length)
  {
    hide StrictWeak, Start, Rearranged, Sorted, Runs;
    var i: nat := 0;
    runs := 0;
    StartStep(0, width);
    NoRuns(less, a[..], width);
    RearrangedRefl(a[..], 0, a.Length);
    while i < a.Length
      invariant i == Start(runs, width) && Runs(less, a[..], width, runs) && Rearranged(old(a[..]), a[..], 0, a.Length)
    {
      ghost var s := a[..];
      var count := if width < a.Length - i then width else a.Length - i;
      InsertionSort(a, i, count, less);
      forall p: nat | p < |s| && (p < i || p >= i + count) ensures a[..][p] == s[p] { RearrangedOutside(s, a[..], i, i + count, p); }
      RunSorted(less, s, a[..], width, runs, i + count);
      RearrangedWider(s, a[..], i, i + count, 0, a.Length);
      RearrangedTrans(old(a[..]), s, a[..], 0, a.Length);
      StartStep(runs, width);
      i := i + width;
      runs := runs + 1;
    }
  }

  lemma NoRuns(less: Less, s: seq<Item>, width: nat)
    ensures Runs(less, s, width, 0)
  {
  }

  lemma SameBag(s: seq<Item>, t: seq<Item>, u: seq<Item>, lo: nat, hi: nat)
    requires lo <= hi <= |s| == |t| == |u| && multiset(s[..lo]) == multiset(u[..lo]) && multiset(t[lo..hi]) == multiset(u[lo..hi])
    requires forall p | 0 <= p < lo :: t[p] == s[p]
    ensures multiset(t[..hi]) == multiset(u[..hi])
  {
    assert t[..lo] == s[..lo];
    assert t[..hi] == t[..lo] + t[lo..hi] && u[..hi] == u[..lo] + u[lo..hi];
  }

  /** What a merged pair of runs adds. */
  lemma PairMerged(less: Less, s: seq<Item>, t: seq<Item>, a: seq<Item>, i: nat, an: nat, y: nat, bn: nat)
    requires Merged(less, s, t, i, a, i, an, a, y, bn) && |s| == |a| && (bn > 0 ==> y == i + an) && multiset(s[..i]) == multiset(a[..i])
    ensures i + an + bn <= |a| && multiset(t[..i + an + bn]) == multiset(a[..i + an + bn])
  {
    hide Sorted;
    var hi := i + an + bn;
    if bn > 0 { assert a[i..hi] == a[i..i + an] + a[y..y + bn]; } else { assert a[y..y + bn] == []; }
    SameBag(s, t, a, i, hi);
  }

  /** Merges neighbouring runs into the other buffer. */
  method MergePass(b: array<Item>, a: array<Item>, width: nat, ghost runs: nat, less: Less) returns (ghost doubled: nat)
    requires StrictWeak(less) && a != b && a.Length == b.Length && width > 0
    requires Runs(less, a[..], width, runs) && Start(runs, width) >= a.Length
    modifies b
    ensures Runs(less, b[..], 2 * width, doubled) && Start(doubled, 2 * width) >= a.Length && multiset(b[..]) == multiset(a[..])
  {
    hide StrictWeak, Start, Rearranged, Sorted, Runs, Merged;
    var i: nat := 0;
    doubled := 0;
    StartStep(0, 2 * width);
    NoRuns(less, b[..], 2 * width);
    assert b[..0] == a[..0];
    var n := a.Length;
    while i < n
      invariant i == Start(doubled, 2 * width) && Runs(less, b[..], 2 * width, doubled)
      invariant multiset(b[..if i < n then i else n]) == multiset(a[..if i < n then i else n])
      decreases n - i
    {
      ghost var s := b[..];
      TwoRuns(less, a[..], width, runs, doubled, i);
      var left := if width < n - i then width else n - i;
      var right := if width < n - i - width then width else n - i - width;
      MergeSorted(b, i, a, i, left, a, i + width, right, less);
      PairDone(less, s, b[..], a[..], width, doubled, i, left, right);
      StartStep(doubled, 2 * width);
      i := i + 2 * width;
      doubled := doubled + 1;
    }
    assert b[..n] == b[..] && a[..n] == a[..];
  }

  lemma TwoRuns(less: Less, a: seq<Item>, width: nat, runs: nat, m: nat, i: nat)
    requires width > 0 && Runs(less, a, width, runs) && Start(runs, width) >= |a| && i == Start(m, 2 * width) < |a|
    ensures Sorted(less, a, i, Upto(i, width, |a|)) && (i + width <= |a| ==> Sorted(less, a, i + width, Upto(i + width, width, |a|)))
  {
    hide Start, Sorted;
    StartStep(m, width);
    StartStep(2 * m, width);
    if 2 * m >= runs { StartOrder(runs, 2 * m, width); }
    if 2 * m + 1 >= runs { StartOrder(runs, 2 * m + 1, width); }
    assert Start(2 * m, width) == i && Start(2 * m + 1, width) == i + width;
    if i + width == |a| { EmptySorted(less, a, |a|); }
  }

  lemma StartOrder(j: nat, m: nat, width: nat)
    requires j <= m
    ensures Start(j, width) <= Start(m, width)
  {
    if j < m { StartGrows(j, m, width); }
  }

  lemma PairDone(less: Less, s: seq<Item>, t: seq<Item>, a: seq<Item>, width: nat, m: nat, i: nat, left: nat, right: int)
    requires width > 0 && |s| == |t| == |a| && i == Start(m, 2 * width) < |a| && Runs(less, s, 2 * width, m)
    requires left == (if width < |a| - i then width else |a| - i) && right == (if width < |a| - i - width then width else |a| - i - width)
    requires right >= 0 ==> Merged(less, s, t, i, a, i, left, a, i + width, right)
    requires right < 0 ==> Merged(less, s, t, i, a, i, left, a, 0, 0)
    requires multiset(s[..i]) == multiset(a[..i])
    ensures Runs(less, t, 2 * width, m + 1)
    ensures var hi := if i + 2 * width < |a| then i + 2 * width else |a|; multiset(t[..hi]) == multiset(a[..hi])
  {
    hide Start, Sorted, Runs;
    var bn: nat, y: nat := if right < 0 then 0 else right, if right < 0 then 0 else i + width;
    PairMerged(less, s, t, a, i, left, y, bn);
    RunSorted(less, s, t, 2 * width, m, i + left + bn);
  }

  /** Sorts `input`, using `temp` in turn with it; unless told otherwise the result ends up in `input`. */
  method MergeSort(input: array<Item>, temp: array<Item>, dontCopyBack: bool, less: Less) returns (r: array<Item>)
    requires StrictWeak(less) && input != temp && input.Length == temp.Length
    modifies input, temp
    ensures (r == input || (r == temp && dontCopyBack)) && Sorted(less, r[..], 0, r.Length) && multiset(r[..]) == multiset(old(input[..]))
  {
    hide StrictWeak, Start, Sorted, Runs;
    var a, b := input, temp;
    var width := 32;
    ghost var runs := SortBlocks(a, width, less);
    assert a[..] == a[0..a.Length] && old(a[..]) == old(a[..])[0..a.Length];
    while width < a.Length
      invariant width > 0 && {a, b} == {input, temp} && a != b && a.Length == b.Length == input.Length
      invariant Runs(less, a[..], width, runs) && Start(runs, width) >= a.Length && multiset(a[..]) == multiset(old(input[..]))
    {
      runs := MergePass(b, a, width, runs, less);
      a, b := b, a;
      width := 2 * width;
    }
    OneRun(less, a[..], width, runs);
    if !dontCopyBack && a != input {
      ghost var s := a[..];
      CopyItems(input, 0, a, 0, a.Length);
      assert input[..] == s;
      a := input;
    }
    r := a;
  }

  lemma OneRun(less: Less, s: seq<Item>, width: nat, runs: nat)
    requires Runs(less, s, width, runs) && Start(runs, width) >= |s| && width >= |s|
    ensures Sorted(less, s, 0, |s|)
  {
    hide Start;
    StartStep(0, width);
    if |s| > 0 {
      assert runs > 0;
      assert Start(0, width) < |s|;
    }
  }

  // ---- binary search ----

  /** Everything before `at` is below `x` and nothing from `at` on is. */
  ghost predicate IsLowerBound(less: Less, s: seq<Item>, x: Item, at: nat) {
    at <= |s| && (forall i | 0 <= i < at :: less(s[i], x)) && (forall i | at <= i < |s| :: !less(s[i], x))
  }

  lemma LowerBoundExists(less: Less, s: seq<Item>, x: Item) returns (at: nat)
    requires StrictWeak(less) && Sorted(less, s, 0, |s|)
    ensures IsLowerBound(less, s, x, at)
  {
    at := 0;
    while at < |s| && less(s[at], x)
      invariant 0 <= at <= |s| && forall i | 0 <= i < at :: less(s[i], x)
    {
      at := at + 1;
    }
    forall i | at <= i < |s| ensures !less(s[i], x) {
      if i > at { LeTrans(less, x, s[at], s[i]); }
    }
  }

  /** Halves without branching; the result is the bound or, at most, one before it. */
  method LowerBoundNoFail(s: array<Item>, x: Item, less: Less, ghost bound: nat) returns (at: nat)
    requires IsLowerBound(less, s[..], x, bound) && s.Length > 0
    ensures at < s.Length && at <= bound <= at + 1
  {
    at := 0;
    var count := s.Length;
    while count > 1
      invariant count >= 1 && at + count <= s.Length && at <= bound <= at + count
    {
      var half := (count + 1) / 2;
      count := count - half;
      if less(s[at + half - 1], x) { at := at + half; }
    }
  }

  /** The first position whose item is not below `x`. */
  method LowerBound(s: array<Item>, x: Item, less: Less) returns (at: nat)
    requires StrictWeak(less) && Sorted(less, s[..], 0, s.Length)
    ensures IsLowerBound(less, s[..], x, at)
  {
    if s.Length == 0 { return 0; }
    ghost var bound := LowerBoundExists(less, s[..], x);
    at := LowerBoundNoFail(s, x, less, bound);
    if less(s[at], x) { at := at + 1; }
  }
}
