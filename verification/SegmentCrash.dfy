/** Files of the log disappear one by one: what a crash in between leaves behind. */
module SegmentCrash {
  import opened Types
  import opened LogStorages
  import opened SegmentChain
  import opened SegmentRecovery

  /** A segment together with the kind of file it has. */
  datatype Handle = Handle(seg: Seg, isOpen: bool)

  function Without(files: seq<ClosedFile>, first: nat, last: int): seq<ClosedFile> {
    if files == [] then []
    else if files[0].first == first && files[0].last == last then Without(files[1..], first, last)
    else [files[0]] + Without(files[1..], first, last)
  }

  function WithoutOpen(files: seq<Seg>, first: nat): seq<Seg> {
    if files == [] then []
    else if files[0].first == first then WithoutOpen(files[1..], first)
    else [files[0]] + WithoutOpen(files[1..], first)
  }

  /** The directory once the file of a segment is gone; the file is found by its name. */
  function Unlinked(d: Dir, h: Handle): Dir {
    if h.isOpen then d.(open := WithoutOpen(d.open, h.seg.first))
    else d.(closed := Without(d.closed, h.seg.first, h.seg.Last()))
  }

  /** Every directory on the way while files are unlinked one after the other. */
  function Trail(d: Dir, hs: seq<Handle>): seq<Dir>
    decreases |hs|
  {
    if hs == [] then [] else [Unlinked(d, hs[0])] + Trail(Unlinked(d, hs[0]), hs[1..])
  }

  function UnlinkedAll(d: Dir, hs: seq<Handle>): Dir
    decreases |hs|
  {
    if hs == [] then d else UnlinkedAll(Unlinked(d, hs[0]), hs[1..])
  }

  /** Closed segments from the last one down to position `m`. */
  function FromBack(segs: seq<Seg>, m: nat): seq<Handle>
    requires m <= |segs|
    decreases |segs|
  {
    if m == |segs| then [] else [Handle(segs[|segs| - 1], false)] + FromBack(segs[..|segs| - 1], m)
  }

  /** Closed segments from the first one up to position `n`. */
  function FromFront(segs: seq<Seg>, n: nat): seq<Handle>
    requires n <= |segs|
    decreases n
  {
    if n == 0 then [] else [Handle(segs[0], false)] + FromFront(segs[1..], n - 1)
  }

  function OpenHandles(open: Option<Seg>): seq<Handle> {
    if open.Some? then [Handle(open.value, true)] else []
  }

  /** A restart shows the log `s` cut behind some index that is not smaller than `k`. */
  ghost predicate CutDown(d: Dir, s: Store, k: int) {
    var r := Recovered(d);
    && r.Some? && Sound(r.value)
    && var v := Visible(r.value.All(), r.value.first);
       0 <= v.Last() && k <= v.Last() && v == s.TruncateSuffix(v.Last())
  }

  // ---- concatenation

  lemma {:induction false} TrailConcat(d: Dir, a: seq<Handle>, b: seq<Handle>)
    ensures UnlinkedAll(d, a + b) == UnlinkedAll(UnlinkedAll(d, a), b)
    ensures Trail(d, a + b) == Trail(d, a) + Trail(UnlinkedAll(d, a), b)
    decreases |a|
  {
    if a == [] {
      assert a + b == b;
    } else {
      assert (a + b)[1..] == a[1..] + b;
      TrailConcat(Unlinked(d, a[0]), a[1..], b);
    }
  }

  lemma {:induction false} FromBackStep(segs: seq<Seg>, m: nat)
    requires 0 < m <= |segs|
    ensures FromBack(segs, m - 1) == FromBack(segs, m) + [Handle(segs[m - 1], false)]
    decreases |segs|
  {
    if m < |segs| {
      FromBackStep(segs[..|segs| - 1], m);
    } else {
      assert FromBack(segs[..|segs| - 1], m - 1) == [];
    }
  }

  // ---- names are unique in a cover

  lemma {:induction false} NotThere(files: seq<ClosedFile>, first: nat, last: int)
    requires forall i | 0 <= i < |files| :: files[i].first != first
    ensures Without(files, first, last) == files
  {
    if files != [] {
      NotThere(files[1..], first, last);
    }
  }

  lemma {:induction false} WithoutConcat(a: seq<ClosedFile>, b: seq<ClosedFile>, first: nat, last: int)
    ensures Without(a + b, first, last) == Without(a, first, last) + Without(b, first, last)
  {
    if a == [] {
      assert a + b == b;
    } else {
      assert (a + b)[1..] == a[1..] + b;
      WithoutConcat(a[1..], b, first, last);
    }
  }

  lemma UnlinkLast(meta: nat, segs: seq<Seg>, open: Option<Seg>)
    requires Cover(segs, meta) && Filled(segs) && segs != []
    ensures var n := |segs| - 1; Unlinked(DirOf(meta, segs, open), Handle(segs[n], false)) == DirOf(meta, segs[..n], open)
  {
    hide Chain;
    var n := |segs| - 1;
    var s := segs[n];
    assert Names(segs) == Names(segs[..n]) + [Named(s)];
    WithoutConcat(Names(segs[..n]), [Named(s)], s.first, s.Last());
    forall i | 0 <= i < n ensures Names(segs[..n])[i].first != s.first {
      StartsGrow(segs, segs[0].first, i, n);
    }
    NotThere(Names(segs[..n]), s.first, s.Last());
    assert Without([Named(s)], s.first, s.Last()) == [];
  }

  lemma {:induction false} UnlinkFirst(meta: nat, segs: seq<Seg>, open: Option<Seg>)
    requires segs != [] && Chain(segs, segs[0].first) && Filled(segs)
    ensures Unlinked(DirOf(meta, segs, open), Handle(segs[0], false)) == DirOf(meta, segs[1..], open)
  {
    var s := segs[0];
    assert Names(segs)[1..] == Names(segs[1..]);
    forall i | 0 <= i < |segs| - 1 ensures Names(segs[1..])[i].first != s.first {
      StartsGrow(segs, segs[0].first, 0, i + 1);
    }
    NotThere(Names(segs[1..]), s.first, s.Last());
  }

  lemma UnlinkOpen(meta: nat, segs: seq<Seg>, open: Seg)
    ensures Unlinked(DirOf(meta, segs, Some(open)), Handle(open, true)) == DirOf(meta, segs, None)
  {
    assert [open][1..] == [];
    assert WithoutOpen([open], open.first) == WithoutOpen([], open.first);
  }

  // ---- from back to front

  /** A shorter cover of the same log is the log cut short. */
  lemma ShorterIsCut(a: seq<Seg>, b: seq<Seg>, first: nat)
    requires Cover(a, first) && Cover(b, first) && Flat(a) <= Flat(b)
    requires a != [] ==> b != [] && a[0].first == b[0].first
    ensures var last := Visible(a, first).Last();
            0 <= last && Visible(a, first) == Visible(b, first).TruncateSuffix(last)
  {
  }

  lemma CutDownBy(first: nat, segs: seq<Seg>, open: Option<Seg>, full: seq<Seg>, k: int)
    requires Cover(segs + OpenSeq(open), first) && Filled(segs) && Cover(full, first)
    requires Flat(segs + OpenSeq(open)) <= Flat(full)
    requires segs + OpenSeq(open) != [] ==> full != [] && (segs + OpenSeq(open))[0].first == full[0].first
    requires Visible(segs + OpenSeq(open), first).Last() >= k
    ensures CutDown(DirOf(first, segs, open), Visible(full, first), k)
  {
    hide Cover, Visible, Recovered, Sound, DirOf;
    RecoverCover(first, segs, open);
    ShorterIsCut(segs + OpenSeq(open), full, first);
  }

  /** Unlinking from the back: every directory on the way is the log cut behind some index from `k` on. */
  lemma {:induction false} BackTrail(first: nat, segs: seq<Seg>, full: seq<Seg>, m: nat, k: int)
    requires Cover(segs, first) && Filled(segs) && Cover(full, first) && m <= |segs| && segs <= full
    requires forall i | m <= i < |segs| :: i > 0 ==> segs[i].first > k
    requires m == 0 ==> k < first
    ensures UnlinkedAll(DirOf(first, segs, None), FromBack(segs, m)) == DirOf(first, segs[..m], None)
    ensures forall d | d in Trail(DirOf(first, segs, None), FromBack(segs, m)) :: CutDown(d, Visible(full, first), k)
    decreases |segs|
  {
    hide Cover, Visible, CutDown, DirOf, Unlinked;
    if m == |segs| {
      assert segs[..m] == segs;
    } else {
      var n := |segs| - 1;
      UnlinkLast(first, segs, None);
      FirstPart(first, segs, full, n, k);
      assert forall i | m <= i < n :: segs[..n][i] == segs[i];
      BackTrail(first, segs[..n], full, m, k);
      assert segs[..n][..m] == segs[..m];
    }
  }

  lemma FirstPart(first: nat, segs: seq<Seg>, full: seq<Seg>, n: nat, k: int)
    requires Cover(segs, first) && Filled(segs) && Cover(full, first) && n < |segs| && segs <= full
    requires if n > 0 then segs[n].first > k else k < first
    ensures Cover(segs[..n], first) && Filled(segs[..n]) && CutDown(DirOf(first, segs[..n], None), Visible(full, first), k)
  {
    hide Visible, CutDown, DirOf;
    var part := segs[..n];
    assert part + OpenSeq(None) == part;
    assert full == part + full[n..];
    FlatConcat(part, full[n..]);
    if n == 0 {
      VisibleOfNone(first);
    } else {
      ChainConcat(part, full[n..], full[0].first);
      Adjacent(segs, segs[0].first, n - 1);
      VisibleLast(part, first);
    }
    CutDownBy(first, part, None, full, k);
  }

  lemma VisibleOfNone(first: nat)
    ensures Visible([], first) == Store(first, [])
  {
  }

  lemma {:induction false} FrontGone(meta: nat, segs: seq<Seg>, open: Option<Seg>, n: nat)
    requires segs != [] ==> Chain(segs, segs[0].first)
    requires Filled(segs) && n <= |segs|
    ensures UnlinkedAll(DirOf(meta, segs, open), FromFront(segs, n)) == DirOf(meta, segs[n..], open)
    decreases n
  {
    hide DirOf, Unlinked;
    if n == 0 {
      assert segs[n..] == segs;
    } else {
      UnlinkFirst(meta, segs, open);
      assert Chain(segs[1..], segs[0].first + |segs[0].entries|);
      FrontGone(meta, segs[1..], open, n - 1);
      assert segs[1..][n - 1..] == segs[n..];
    }
  }

  /** Unlinking stale segments from the front shows the same log all the way. */
  lemma {:induction false} FrontTrail(meta: nat, segs: seq<Seg>, open: Option<Seg>, n: nat)
    requires Cover(segs + OpenSeq(open), meta) && Filled(segs) && n <= |segs|
    requires forall i | 0 <= i < n :: segs[i].Last() < meta
    ensures forall d | d in Trail(DirOf(meta, segs, open), FromFront(segs, n)) ::
              Recovers(d, Visible(segs + OpenSeq(open), meta))
    decreases n
  {
    hide Visible, Recovers, DirOf, Unlinked;
    if n > 0 {
      CoverParts(segs, open, meta);
      UnlinkFirst(meta, segs, open);
      DropOne(segs + OpenSeq(open), meta);
      assert (segs + OpenSeq(open))[1..] == segs[1..] + OpenSeq(open);
      RecoverCover(meta, segs[1..], open);
      FrontTrail(meta, segs[1..], open, n - 1);
    }
  }

  // ---- resetting

  /** A directory left behind by a reset that has stored its first index and unlinked some of the files. */
  predicate ResetSafe(rest: seq<Seg>, next: nat) {
    rest != [] ==> rest[|rest| - 1].Last() < next
  }

  /** What a restart makes of it. It shows the reset log exactly when every file left lies before the new first index;
      otherwise it refuses to start, has a hole, or shows entries that the reset had discarded. */
  lemma ResetCrash(segs: seq<Seg>, open: Option<Seg>, base: nat, next: nat)
    requires next > 0 && base > 0 && Chain(segs + OpenSeq(open), base) && Filled(segs)
    ensures var d, rest := DirOf(next, segs, open), segs + OpenSeq(open);
            && (Recovers(d, Store(next, [])) <==> ResetSafe(rest, next))
            && (Recovered(d).None? <==> segs != [] && next < base)
            && (rest != [] && base <= next && !ResetSafe(rest, next) ==>
                  Recovers(d, Store(base, Flat(rest)).TruncatePrefix(next)))
  {
    hide Chain, Filled, Flat, Recovered, Recovers, DirOf, Visible;
    var d, rest := DirOf(next, segs, open), segs + OpenSeq(open);
    if rest == [] || base <= next {
      ResetCovered(segs, open, base, next);
    } else {
      ResetRefused(segs, open, base, next);
    }
  }

  /** The files left start no later than the new first index: a restart shows what lies behind it. */
  lemma ResetCovered(segs: seq<Seg>, open: Option<Seg>, base: nat, next: nat)
    requires next > 0 && base > 0 && Chain(segs + OpenSeq(open), base) && Filled(segs)
    requires segs + OpenSeq(open) == [] || base <= next
    ensures var d, rest := DirOf(next, segs, open), segs + OpenSeq(open);
            && Recovered(d).Some? && (Recovers(d, Store(next, [])) <==> ResetSafe(rest, next))
            && (rest != [] ==> Recovers(d, Store(base, Flat(rest)).TruncatePrefix(next)))
  {
    hide Filled, Flat, DirOf, Recovered, Sound;
    var rest := segs + OpenSeq(open);
    RecoverCover(next, segs, open);
    if rest != [] {
      FirstOfChain(rest, base);
      hide Visible;
      VisibleLast(rest, next);
      VisibleIs(rest, next);
    }
  }

  lemma FirstOfChain(segs: seq<Seg>, base: nat)
    requires Chain(segs, base) && segs != []
    ensures segs[0].first == base
  {
  }

  lemma VisibleIs(segs: seq<Seg>, first: nat)
    requires Cover(segs, first) && segs != []
    ensures Visible(segs, first) == Store(segs[0].first, Flat(segs)).TruncatePrefix(first)
    ensures Visible(segs, first) == Store(first, []) <==> Visible(segs, first).Last() < first
  {
  }

  /** The files left start behind the new first index: a closed one stops the restart, an open one leaves a hole. */
  lemma ResetRefused(segs: seq<Seg>, open: Option<Seg>, base: nat, next: nat)
    requires Chain(segs + OpenSeq(open), base) && Filled(segs) && segs + OpenSeq(open) != [] && 0 < next < base
    ensures var d, rest := DirOf(next, segs, open), segs + OpenSeq(open);
            && !Recovers(d, Store(next, [])) && !ResetSafe(rest, next) && (Recovered(d).None? <==> segs != [])
  {
    hide Flat;
    var rest := segs + OpenSeq(open);
    FirstOfChain(rest, base);
    StartsGrow(rest, base, 0, |rest| - 1);
    if segs == [] {
      assert rest == [open.value];
    } else {
      assert rest[0] == segs[0];
    }
  }

  /** What a reset unlinks, in its order. */
  function AllHandles(m: Image): seq<Handle> {
    FromFront(m.segments, |m.segments|) + OpenHandles(m.open)
  }

  /** Every crash point of a reset shows the reset log, if and only if the new first index lies behind the old log: if
      it does not, the very first directory does not. */
  lemma ResetSteps(m: Image, next: nat)
    requires Sound(m) && next > 0
    ensures var d, hs := DirOf(next, m.segments, m.open), AllHandles(m);
            && UnlinkedAll(d, hs) == DirOf(next, [], None)
            && ((forall x | x in [d] + Trail(d, hs) :: Recovers(x, Store(next, []))) <==> ResetSafe(m.All(), next))
  {
    hide Visible, Recovers, Chain, Unlinked, Sound, DirOf, AllHandles, Trail, UnlinkedAll;
    var d := DirOf(next, m.segments, m.open);
    ResetUnlinks(m, next);
    ResetFirst(m, next);
    if ResetSafe(m.All(), next) && m.All() != [] {
      ResetTrail(m, next);
      RecoverCover(next, [], None);
      VisibleOfNone(next);
      assert [] + OpenSeq(None) == [];
    }
    assert d in [d] + Trail(d, AllHandles(m));
  }

  /** The closed files go first, the open one last. */
  lemma ResetUnlinks(m: Image, next: nat)
    requires Sound(m)
    ensures var d, closed := DirOf(next, m.segments, m.open), FromFront(m.segments, |m.segments|);
            && UnlinkedAll(d, AllHandles(m)) == DirOf(next, [], None)
            && Trail(d, AllHandles(m)) == Trail(d, closed) + (if m.open.Some? then [DirOf(next, [], None)] else [])
    ensures m.All() == [] ==> Trail(DirOf(next, m.segments, m.open), AllHandles(m)) == []
  {
    hide Visible, Chain, Unlinked, Filled, DirOf;
    var d, n := DirOf(next, m.segments, m.open), |m.segments|;
    CoverParts(m.segments, m.open, m.first);
    hide Cover;
    FrontGone(next, m.segments, m.open, n);
    assert m.segments[n..] == [];
    TrailConcat(d, FromFront(m.segments, n), OpenHandles(m.open));
    if m.open.Some? {
      UnlinkOpen(next, [], m.open.value);
      OneUnlinked(DirOf(next, [], m.open), Handle(m.open.value, true));
    }
  }

  lemma OneUnlinked(d: Dir, h: Handle)
    ensures UnlinkedAll(d, [h]) == Unlinked(d, h) && Trail(d, [h]) == [Unlinked(d, h)]
  {
    assert [h][1..] == [];
  }

  lemma ResetFirst(m: Image, next: nat)
    requires Sound(m) && next > 0
    ensures Recovers(DirOf(next, m.segments, m.open), Store(next, [])) <==> ResetSafe(m.All(), next)
  {
    hide Visible, Recovers, Recovered, DirOf, Filled;
    if m.All() == [] {
      ResetCrash(m.segments, m.open, 1, next);
    } else {
      ResetCrash(m.segments, m.open, m.All()[0].first, next);
    }
  }

  lemma ResetTrail(m: Image, next: nat)
    requires Sound(m) && m.All() != [] && ResetSafe(m.All(), next)
    ensures Cover([], next)
    ensures forall x | x in Trail(DirOf(next, m.segments, m.open), FromFront(m.segments, |m.segments|)) ::
              Recovers(x, Store(next, []))
  {
    hide Visible, Recovers;
    var all := m.All();
    CoverGrows(all, m.first, 0, |all| - 1);
    assert Cover(all, next);
    forall i | 0 <= i < |all| ensures all[i].Last() < next {
      CoverGrows(all, m.first, i, |all| - 1);
    }
    assert forall i | 0 <= i < |m.segments| :: m.segments[i] == all[i];
    AllStale(all, next);
    FrontTrail(next, m.segments, m.open, |m.segments|);
  }
}
