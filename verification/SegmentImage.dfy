/** What the operations of the segmented storage do to its segments, on values. */
module SegmentImage {
  import opened Types
  import opened LogStorages
  import opened SegmentChain
  import opened SegmentRecovery
  import opened SegmentCrash

  function View(m: Image): Store {
    Visible(m.All(), m.first)
  }

  /** In a sound image the last segment ends at the last index. */
  lemma LastSegment(m: Image)
    requires Sound(m)
    ensures m.first - 1 <= m.last && View(m).first == m.first && View(m).Valid()
    ensures m.All() != [] ==> m.last == m.All()[|m.All()| - 1].Last()
    ensures m.All() == [] ==> m.last == m.first - 1
    ensures m.open.Some? ==> m.last == m.open.value.Last()
  {
    hide Chain, Filled;
    var all := m.All();
    if all != [] {
      FlatValid(all, all[0].first);
      VisibleLast(all, m.first);
      StartsGrow(all, all[0].first, 0, |all| - 1);
    }
  }

  // ---- appending

  lemma OpenAdded(m: Image, s: Seg)
    requires Sound(m) && m.open.None? && s == Seg(m.last + 1, [])
    ensures var r := m.(open := Some(s)); Sound(r) && View(r) == View(m)
  {
    hide Filled;
    LastSegment(m);
    var r := m.(open := Some(s));
    assert r.All() == m.All() + [s];
    FlatConcat(m.All(), [s]);
    FlatOne(s);
    if m.All() == [] {
      ChainOne(s, s.first);
      assert m.All() + [s] == [s];
    } else {
      var base := m.All()[0].first;
      ChainConcat(m.All(), [s], base);
      ChainOne(s, s.first);
      ChainEnd(m.All(), base);
    }
  }

  lemma ChainEnd(segs: seq<Seg>, base: nat)
    requires Chain(segs, base) && segs != []
    ensures base + |Flat(segs)| == segs[|segs| - 1].Last() + 1
  {
    SplitAt(segs, base, |segs| - 1);
    assert segs[|segs| - 1..] == [segs[|segs| - 1]];
    FlatOne(segs[|segs| - 1]);
  }

  lemma Rolled(m: Image)
    requires Sound(m) && m.open.Some? && m.open.value.entries != []
    ensures var r := m.(segments := m.segments + [m.open.value], open := None); Sound(r) && View(r) == View(m)
  {
    var r := m.(segments := m.segments + [m.open.value], open := None);
    assert r.All() == m.All();
    hide Cover, Visible;
  }

  lemma PutChain(segs: seq<Seg>, s: Seg, e: LogEntry, base: nat)
    requires Chain(segs + [s], base) && base > 0 && e.id.index == s.Last() + 1
    ensures var open := Seg(s.first, s.entries + [e]);
            Chain(segs + [open], base) && Flat(segs + [open]) == Flat(segs + [s]) + [e]
  {
    hide Flat, Chain;
    var open := Seg(s.first, s.entries + [e]);
    FlatConcat(segs, [s]);
    FlatConcat(segs, [open]);
    FlatOne(s);
    FlatOne(open);
    ChainConcat(segs, [s], base);
    ChainConcat(segs, [open], base);
    ChainOne(s, base + |Flat(segs)|);
    ChainOne(open, base + |Flat(segs)|);
    assert Flat(segs) + (s.entries + [e]) == Flat(segs) + s.entries + [e];
  }

  lemma VisibleGrows(a: seq<Seg>, b: seq<Seg>, first: nat, e: LogEntry)
    requires Cover(a, first) && a != [] && b != [] && b[0].first == a[0].first && Flat(b) == Flat(a) + [e]
    requires first <= a[0].first + |Flat(a)|
    ensures Visible(b, first) == Visible(a, first).Append([e])
  {
  }

  lemma Put(m: Image, e: LogEntry)
    requires Sound(m) && m.open.Some? && e.id.index == m.last + 1
    ensures var open := Seg(m.open.value.first, m.open.value.entries + [e]);
            var r := m.(open := Some(open), last := m.last + 1); Sound(r) && View(r) == View(m).Append([e])
  {
    hide Filled, Visible, Chain, Flat;
    LastSegment(m);
    var s := m.open.value;
    var open := Seg(s.first, s.entries + [e]);
    var r := m.(open := Some(open), last := m.last + 1);
    assert m.All() == m.segments + [s] && r.All() == m.segments + [open];
    var base := m.All()[0].first;
    PutChain(m.segments, s, e, base);
    ChainEnd(m.All(), base);
    VisibleGrows(m.All(), r.All(), m.first, e);
  }

  // ---- dropping from the front

  /** The image once everything before `k` is dropped. */
  function DropFront(m: Image, k: nat): Image {
    var n := Stale(m.segments, k);
    if n < |m.segments| then m.(first := k, segments := m.segments[n..])
    else if m.open.Some? && k <= m.open.value.Last() then Image(k, m.last, [], m.open)
    else Image(k, k - 1, [], None)
  }

  lemma VisibleFurther(segs: seq<Seg>, first: nat, k: nat)
    requires Cover(segs, first) && first <= k
    ensures Cover(segs, k) && Visible(segs, k) == Visible(segs, first).TruncatePrefix(k)
  {
  }

  lemma DropFrontOk(m: Image, k: nat)
    requires Sound(m) && m.first < k
    ensures Sound(DropFront(m, k)) && View(DropFront(m, k)) == View(m).TruncatePrefix(k)
  {
    hide Visible, Cover, Stale;
    var n := Stale(m.segments, k);
    var r := DropFront(m, k);
    LastSegment(m);
    VisibleFurther(m.All(), m.first, k);
    if n < |m.segments| || (m.open.Some? && k <= m.open.value.Last()) {
      DropStale(m.All(), k, n);
      assert m.All()[n..] == m.segments[n..] + OpenSeq(m.open);
      assert n == |m.segments| ==> m.segments[n..] == [];
      if n < |m.segments| && m.open.Some? {
        CoverGrows(m.All(), m.first, n, |m.segments|);
      }
      SoundImage(k, m.segments[n..], m.open);
    } else {
      AllStale(m.All(), k);
      assert r.All() == [];
    }
  }

  // ---- cutting the back

  /** How many of the segments start at `k` or before. */
  function Reach(segs: seq<Seg>, k: nat): (n: nat)
    ensures n <= |segs| && (n > 0 ==> segs[n - 1].first <= k)
    ensures forall i | n <= i < |segs| :: segs[i].first > k
    decreases |segs|
  {
    if segs == [] || segs[|segs| - 1].first <= k then |segs| else Reach(segs[..|segs| - 1], k)
  }

  /** The image once everything behind `k` is cut off. */
  function CutBack(m: Image, k: nat): Image {
    var n := Reach(m.segments, k);
    if k < m.first then Image(m.first, k, [], None)
    else if m.open.Some? && m.open.value.first <= k then m.(last := k, open := Some(m.open.value.Cut(k)))
    else if n == 0 || k >= m.segments[n - 1].Last() then Image(m.first, k, m.segments[..n], None)
    else Image(m.first, k, m.segments[..n - 1], Some(m.segments[n - 1].Cut(k)))
  }

  /** Cutting one segment and dropping those behind it. */
  lemma CutChain(segs: seq<Seg>, base: nat, i: nat, k: nat)
    requires Chain(segs, base) && base > 0 && i < |segs| && segs[i].first <= k <= segs[i].Last()
    ensures var cut := segs[..i] + [segs[i].Cut(k)];
            Chain(cut, base) && Flat(cut) <= Flat(segs) && base + |Flat(cut)| == k + 1
  {
    hide Chain, Flat;
    var cut := segs[..i] + [segs[i].Cut(k)];
    SplitAt(segs, base, i);
    SplitAt(segs[i..], segs[i].first, 1);
    assert segs[i..][..1] == [segs[i]];
    FlatOne(segs[i]);
    FlatOne(segs[i].Cut(k));
    ChainOne(segs[i], segs[i].first);
    ChainOne(segs[i].Cut(k), segs[i].first);
    FlatConcat(segs[..i], [segs[i].Cut(k)]);
    ChainConcat(segs[..i], [segs[i].Cut(k)], base);
  }

  lemma CutCover(all: seq<Seg>, first: nat, i: nat, k: nat)
    requires Cover(all, first) && first <= k && i < |all| && all[i].first <= k <= all[i].Last()
    ensures var cut := all[..i] + [all[i].Cut(k)];
            && Cover(cut, first) && Visible(cut, first).Last() == k && Flat(cut) <= Flat(all)
            && Visible(cut, first) == Visible(all, first).TruncateSuffix(k)
  {
    hide Chain, Flat;
    var cut := all[..i] + [all[i].Cut(k)];
    CutChain(all, all[0].first, i, k);
    ShorterIsCut(cut, all, first);
  }

  /** The segment that holds `k`. */
  lemma Holder(m: Image, k: nat)
    requires Sound(m) && m.first <= k <= m.last && (m.open.None? || m.open.value.first > k)
    ensures var n := Reach(m.segments, k); n > 0 && m.segments[n - 1].first <= k <= m.segments[n - 1].Last()
  {
    hide Visible, Filled, Chain;
    LastSegment(m);
    var n, all := Reach(m.segments, k), m.All();
    assert all[0].first <= k;
    assert m.segments != [] && all[0] == m.segments[0];
    if n < |all| {
      Adjacent(all, all[0].first, n - 1);
      assert all[n].first > k;
    }
  }

  lemma CutBackOk(m: Image, k: nat)
    requires Sound(m) && m.first - 1 <= k <= m.last
    ensures Sound(CutBack(m, k)) && View(CutBack(m, k)) == View(m).TruncateSuffix(k)
  {
    hide Visible, Cover, Reach, Filled;
    LastSegment(m);
    FilledParts(m.segments);
    var n, all, r := Reach(m.segments, k), m.All(), CutBack(m, k);
    if k < m.first {
      NothingKept(m, k);
      assert r.All() == [];
    } else if m.open.Some? && m.open.value.first <= k {
      CutCover(all, m.first, |m.segments|, k);
      assert all[..|m.segments|] == m.segments;
    } else {
      Holder(m, k);
      CutCover(all, m.first, n - 1, k);
      assert all[..n - 1] == m.segments[..n - 1];
      assert m.segments[..n] == m.segments[..n - 1] + [m.segments[n - 1]];
      assert r.All() == all[..n - 1] + [all[n - 1].Cut(k)];
    }
  }

  lemma FilledParts(segs: seq<Seg>)
    requires Filled(segs)
    ensures Filled([]) && forall n | 0 <= n <= |segs| :: Filled(segs[..n])
  {
  }

  lemma NothingKept(m: Image, k: nat)
    requires Sound(m) && k == m.first - 1
    ensures Cover([], m.first) && Visible([], m.first) == View(m).TruncateSuffix(k) == Store(m.first, [])
  {
    LastSegment(m);
  }
}
