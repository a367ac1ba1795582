/** Cutting the back of the segmented log: the files touched on the way, on values. */
module SegmentSuffix {
  import opened Types
  import opened LogStorages
  import opened SegmentChain
  import opened SegmentRecovery
  import opened SegmentCrash
  import opened SegmentImage

  predicate OpenStays(m: Image, k: nat) {
    m.open.Some? && m.open.value.first <= k
  }

  /** How many closed segments are left when the files behind `k` are gone. */
  function Left(m: Image, k: nat): (n: nat)
    ensures n <= |m.segments|
  {
    if k < m.first then 0 else if OpenStays(m, k) then |m.segments| else Reach(m.segments, k)
  }

  function OpenLeft(m: Image, k: nat): Option<Seg> {
    if OpenStays(m, k) && m.first <= k then m.open else None
  }

  /** What `truncate_suffix` unlinks, in its order: the open segment, then closed ones from the back. */
  function BackHandles(m: Image, k: nat): seq<Handle> {
    OpenHandles(if OpenLeft(m, k).Some? then None else m.open) + FromBack(m.segments, Left(m, k))
  }

  lemma LeftBounds(m: Image, k: nat)
    requires Sound(m) && m.first - 1 <= k <= m.last
    ensures forall i | Left(m, k) <= i < |m.segments| :: i > 0 ==> m.segments[i].first > k
    ensures Left(m, k) == 0 && OpenLeft(m, k).None? ==> k < m.first
    ensures k < m.first && m.segments != [] ==> m.open.None? || m.open.value.first > k
  {
    hide Visible, Filled, Reach;
    LastSegment(m);
    if k < m.first {
      if m.segments != [] {
        forall i | 0 < i < |m.All()| ensures m.All()[i].first > k {
          CoverGrows(m.All(), m.first, 0, i);
        }
        assert forall i | 0 <= i < |m.segments| :: m.All()[i] == m.segments[i];
      }
    } else if !OpenStays(m, k) {
      Holder(m, k);
    }
  }

  /** Every directory while files are unlinked shows the log cut behind some index from `k` on. */
  lemma SuffixUnlinks(m: Image, k: nat)
    requires Sound(m) && m.first - 1 <= k <= m.last
    ensures UnlinkedAll(DirOf(m.first, m.segments, m.open), BackHandles(m, k))
         == DirOf(m.first, m.segments[..Left(m, k)], OpenLeft(m, k))
    ensures forall d | d in Trail(DirOf(m.first, m.segments, m.open), BackHandles(m, k)) ::
              CutDown(d, SegmentImage.View(m), k)
  {
    hide Visible, Cover, Reach, CutDown, DirOf;
    var d, n := DirOf(m.first, m.segments, m.open), Left(m, k);
    LeftBounds(m, k);
    if OpenLeft(m, k).Some? {
      assert m.segments[..n] == m.segments;
      assert BackHandles(m, k) == [];
    } else {
      var hs := OpenHandles(m.open);
      TrailConcat(d, hs, FromBack(m.segments, n));
      if m.open.Some? {
        UnlinkOpen(m.first, m.segments, m.open.value);
        OpenUnlinked(m, k);
      }
      CoverParts(m.segments, m.open, m.first);
      BackTrail(m.first, m.segments, m.All(), n, k);
    }
  }

  lemma OpenUnlinked(m: Image, k: nat)
    requires Sound(m) && m.first - 1 <= k <= m.last && m.open.Some? && OpenLeft(m, k).None?
    ensures CutDown(DirOf(m.first, m.segments, None), SegmentImage.View(m), k)
  {
    hide Visible, Reach, CutDown, DirOf, Chain;
    LeftBounds(m, k);
    CoverParts(m.segments, m.open, m.first);
    assert m.segments + OpenSeq(None) == m.segments;
    FlatConcat(m.segments, OpenSeq(m.open));
    if m.segments != [] {
      VisibleLast(m.segments, m.first);
    } else {
      VisibleOfNone(m.first);
    }
    CutDownBy(m.first, m.segments, None, m.All(), k);
  }

  /** A closed segment is renamed to an open one before it is cut, so the name never promises more than it holds. */
  lemma Reopened(m: Image, k: nat)
    requires Sound(m) && m.first <= k <= m.last && !OpenStays(m, k)
    ensures Left(m, k) > 0
    ensures var n := Left(m, k);
            var s, d := m.segments[n - 1], DirOf(m.first, m.segments[..n], None);
            && Dir(d.meta, Without(d.closed, s.first, s.Last()), d.open + [s]) == DirOf(m.first, m.segments[..n - 1], Some(s))
            && CutDown(DirOf(m.first, m.segments[..n - 1], Some(s)), SegmentImage.View(m), k)
  {
    hide Visible, Reach, CutDown, Chain;
    Holder(m, k);
    var n, all := Left(m, k), m.All();
    var segs, s := m.segments[..n], m.segments[n - 1];
    CoverParts(m.segments, m.open, m.first);
    assert all == segs + all[n..];
    ChainConcat(segs, all[n..], all[0].first);
    FlatConcat(segs, all[n..]);
    assert segs[..n - 1] == m.segments[..n - 1];
    UnlinkLast(m.first, segs, None);
    assert m.segments[..n - 1] + OpenSeq(Some(s)) == segs;
    VisibleLast(segs, m.first);
    CutDownBy(m.first, m.segments[..n - 1], Some(s), all, k);
  }

  lemma CutDone(m: Image, k: nat)
    requires Sound(m) && m.first - 1 <= k <= m.last
    ensures var r := CutBack(m, k); Sound(r) && CutDown(DirOf(r.first, r.segments, r.open), SegmentImage.View(m), k)
  {
    hide Visible, Cover, Recovered, DirOf, CutBack;
    LastSegment(m);
    var r := CutBack(m, k);
    CutBackOk(m, k);
    CutBackLast(m, k);
    LastSegment(r);
    RecoverCover(r.first, r.segments, r.open);
  }

  lemma CutBackLast(m: Image, k: nat)
    ensures CutBack(m, k).last == k && CutBack(m, k).first == m.first
  {
  }

  /** The handles as the code collects them: what starts behind `k`, and the last segment too when nothing is left. */
  lemma Collected(m: Image, k: nat)
    requires Sound(m) && m.first - 1 <= k <= m.last
    ensures OpenStays(m, k) && k < m.first ==> m.segments == [] && BackHandles(m, k) == OpenHandles(m.open)
    ensures OpenStays(m, k) && m.first <= k ==> BackHandles(m, k) == []
    ensures var n := Reach(m.segments, k);
            !OpenStays(m, k) ==>
              if k < m.first && n > 0
              then n == 1 && BackHandles(m, k) == OpenHandles(m.open) + FromBack(m.segments, n) + [Handle(m.segments[0], false)]
              else (n == 0 ==> k + 1 == m.first) && BackHandles(m, k) == OpenHandles(m.open) + FromBack(m.segments, n)
  {
    hide Visible, Reach, Cover;
    var n := Reach(m.segments, k);
    LeftBounds(m, k);
    if OpenStays(m, k) {
      if k < m.first {
        assert m.segments == [];
      }
    } else if k < m.first && n > 0 {
      assert n == 1;
      FromBackStep(m.segments, 1);
      assert OpenHandles(m.open) + (FromBack(m.segments, 1) + [Handle(m.segments[0], false)])
          == OpenHandles(m.open) + FromBack(m.segments, 1) + [Handle(m.segments[0], false)];
    } else if m.first <= k {
      Holder(m, k);
    }
  }
}
