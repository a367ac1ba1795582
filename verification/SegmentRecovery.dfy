/** The directory of a segmented log, and what a restart makes of it. */
module SegmentRecovery {
  import opened Types
  import opened LogStorages
  import opened SegmentChain

  /** A closed segment file; first and last index are part of its name. */
  datatype ClosedFile = ClosedFile(first: nat, last: int, entries: seq<LogEntry>)

  /** The stored first index, the closed files in the order of their first index, and the files in progress. A file
      renamed for deletion is dropped by every restart, so it does not count. */
  datatype Dir = Dir(meta: nat, closed: seq<ClosedFile>, open: seq<Seg>)

  /** What a storage holds in memory once it has started. */
  datatype Image = Image(first: nat, last: int, segments: seq<Seg>, open: Option<Seg>) {
    function All(): seq<Seg> {
      segments + OpenSeq(open)
    }
  }

  function OpenSeq(open: Option<Seg>): seq<Seg> {
    if open.Some? then [open.value] else []
  }

  /** The log that segments hold from `first` on. */
  function Visible(segs: seq<Seg>, first: nat): Store {
    if segs == [] then Store(first, []) else Store(segs[0].first, Flat(segs)).TruncatePrefix(first)
  }

  /** An ordered, gap-free cover that starts no later than `first`. */
  ghost predicate Cover(segs: seq<Seg>, first: nat) {
    first > 0 && (segs != [] ==> 0 < segs[0].first <= first && Chain(segs, segs[0].first))
  }

  predicate Filled(segs: seq<Seg>) {
    forall i | 0 <= i < |segs| :: segs[i].entries != []
  }

  function Named(s: Seg): ClosedFile {
    ClosedFile(s.first, s.Last(), s.entries)
  }

  function Names(segs: seq<Seg>): (files: seq<ClosedFile>)
    ensures |files| == |segs| && forall i | 0 <= i < |segs| :: files[i] == Named(segs[i])
  {
    seq(|segs|, i requires 0 <= i < |segs| => Named(segs[i]))
  }

  /** The directory that holds exactly these segments. */
  function DirOf(meta: nat, segs: seq<Seg>, open: Option<Seg>): Dir {
    Dir(meta, Names(segs), OpenSeq(open))
  }

  // ---- starting up

  /** The closed files that `list_segments` keeps, or nothing when it refuses; `last` is the last index so far, -1
      before the first file is kept. */
  function Listed(files: seq<ClosedFile>, meta: nat, last: int): Option<seq<ClosedFile>> {
    if files == [] then Some([])
    else
      var f := files[0];
      if f.first > f.last then None
      else if last != -1 && f.first != last + 1 then None
      else if last == -1 && meta < f.first then None
      else if last == -1 && meta > f.last then Listed(files[1..], meta, -1)
      else
        var rest := Listed(files[1..], meta, f.last);
        if rest.None? then None else Some([f] + rest.value)
  }

  /** The names are right and each file starts where the one before it ends. */
  ghost predicate InRow(files: seq<ClosedFile>)
    decreases |files|
  {
    files != [] ==>
      && files[0].first <= files[0].last && InRow(files[1..])
      && (|files| > 1 ==> files[1].first == files[0].last + 1)
  }

  lemma {:induction false} ListedRow(files: seq<ClosedFile>, meta: nat, last: int)
    requires last != -1
    ensures Listed(files, meta, last) == if InRow(files) && (files != [] ==> files[0].first == last + 1) then Some(files) else None
    decreases |files|
  {
    if files != [] && files[0].first <= files[0].last {
      ListedRow(files[1..], meta, files[0].last);
      assert files == [files[0]] + files[1..];
    }
  }

  /** Which files are kept: those from the first one on that does not lie before the stored first index, if that one starts
      at it or before and no name is wrong and no file missing among them; otherwise start-up is refused. */
  lemma {:induction false} ListedExactly(files: seq<ClosedFile>, meta: nat, n: nat)
    requires n <= |files| && (forall i | 0 <= i < n :: files[i].first <= files[i].last < meta)
    requires n < |files| ==> !(files[n].first <= files[n].last < meta)
    ensures Listed(files, meta, -1) ==
              if n < |files| && (files[n].first > meta || !InRow(files[n..])) then None else Some(files[n..])
    decreases n
  {
    if n > 0 {
      ListedExactly(files[1..], meta, n - 1);
      assert files[1..][n - 1..] == files[n..];
    } else if files != [] {
      if files[0].first <= files[0].last {
        ListedRow(files[1..], meta, files[0].last);
        assert files == [files[0]] + files[1..] && files[0..] == files;
      }
    }
  }

  /** A closed file is loaded when it holds the entries its name says. */
  predicate Loads(files: seq<ClosedFile>) {
    forall i | 0 <= i < |files| :: files[i].last == files[i].first + |files[i].entries| - 1
  }

  function LastOf(files: seq<ClosedFile>): int {
    if files == [] then -1 else files[|files| - 1].last
  }

  function Segs(files: seq<ClosedFile>): (segs: seq<Seg>)
    ensures |segs| == |files| && forall i | 0 <= i < |segs| :: segs[i] == Seg(files[i].first, files[i].entries)
  {
    seq(|files|, i requires 0 <= i < |files| => Seg(files[i].first, files[i].entries))
  }

  /** What a restart finds. A hole before the file in progress is only logged. */
  function Recovered(d: Dir): Option<Image> {
    if |d.open| > 1 then None
    else
      var kept := Listed(d.closed, d.meta, -1);
      if kept.None? then None
      else if d.open != [] && LastOf(kept.value) > d.open[0].first - 1 then None
      else if !Loads(kept.value) then None
      else
        var open := if d.open != [] && d.meta <= d.open[0].Last() then Some(d.open[0]) else None;
        var last := if open.Some? then open.value.Last() else if kept.value != [] then LastOf(kept.value) else 0;
        Some(Image(d.meta, if last == 0 then d.meta - 1 else last, Segs(kept.value), open))
  }

  /** The shape every running storage keeps; a segment that lies wholly before `first` is gone. */
  ghost predicate Sound(m: Image) {
    && Cover(m.All(), m.first) && Filled(m.segments) && m.last == Visible(m.All(), m.first).Last()
    && (m.segments != [] ==> m.segments[0].Last() >= m.first)
    && (m.segments == [] && m.open.Some? ==>
          m.open.value.Last() >= m.first || m.open.value == Seg(m.first, []))
  }

  /** A restart on this directory succeeds, and shows this log. */
  ghost predicate Recovers(d: Dir, s: Store) {
    var r := Recovered(d);
    r.Some? && Sound(r.value) && Visible(r.value.All(), r.value.first) == s
  }

  // ---- starting on a directory that holds a cover

  /** How many of the segments lie wholly before `first`. */
  function Stale(segs: seq<Seg>, first: nat): (n: nat)
    ensures n <= |segs| && (n < |segs| ==> segs[n].Last() >= first)
    ensures forall i | 0 <= i < n :: segs[i].Last() < first
  {
    if segs == [] || segs[0].Last() >= first then 0 else 1 + Stale(segs[1..], first)
  }

  lemma {:induction false} ListedChain(segs: seq<Seg>, base: nat, meta: nat, last: int)
    requires Chain(segs, base) && Filled(segs) && base > 0
    requires if last == -1 then base <= meta else last == base - 1
    ensures Listed(Names(segs), meta, last) == Some(Names(if last == -1 then segs[Stale(segs, meta)..] else segs))
  {
    if segs != [] {
      var f := Named(segs[0]);
      assert Names(segs)[1..] == Names(segs[1..]);
      assert Filled(segs[1..]);
      if last == -1 && meta > f.last {
        ListedChain(segs[1..], base + |segs[0].entries|, meta, -1);
        assert segs[Stale(segs, meta)..] == segs[1..][Stale(segs[1..], meta)..];
      } else {
        ListedChain(segs[1..], base + |segs[0].entries|, meta, f.last);
        assert [f] + Names(segs[1..]) == Names(segs);
        assert segs[0..] == segs;
      }
    }
  }

  /** Dropping the first segment, when it lies wholly before `first`, changes nothing that can be seen. */
  lemma DropOne(segs: seq<Seg>, first: nat)
    requires Cover(segs, first) && segs != [] && segs[0].Last() < first
    ensures Cover(segs[1..], first) && Visible(segs[1..], first) == Visible(segs, first)
  {
    var n := |segs[0].entries|;
    var rest := Flat(segs[1..]);
    assert Flat(segs) == segs[0].entries + rest;
    if segs[1..] != [] {
      assert Chain(segs[1..], segs[0].first + n);
      assert first - segs[0].first - n < |rest| ==> Flat(segs)[first - segs[0].first..] == rest[first - segs[0].first - n..];
    } else {
      assert |Flat(segs)| == n;
    }
  }

  lemma {:induction false} DropStale(segs: seq<Seg>, first: nat, n: nat)
    requires Cover(segs, first) && n <= |segs| && (forall i | 0 <= i < n :: segs[i].Last() < first)
    ensures Cover(segs[n..], first) && Visible(segs[n..], first) == Visible(segs, first)
  {
    hide Cover, Visible;
    if n > 0 {
      assert segs[0].Last() < first;
      DropOne(segs, first);
      DropStale(segs[1..], first, n - 1);
      assert segs[1..][n - 1..] == segs[n..];
    } else {
      assert segs[n..] == segs;
    }
  }

  /** The last index that can be seen is that of the last segment, unless all of it lies before `first`. */
  lemma VisibleLast(segs: seq<Seg>, first: nat)
    requires Cover(segs, first) && segs != []
    ensures var last := segs[|segs| - 1].Last(); Visible(segs, first).Last() == if first > last then first - 1 else last
  {
    var n := |segs|;
    SplitAt(segs, segs[0].first, n - 1);
    assert segs[n - 1..] == [segs[n - 1]];
    FlatOne(segs[n - 1]);
  }

  /** What a restart keeps of a cover: the closed segments that reach `meta`, and the open one if it does. */
  lemma RecoveredIs(meta: nat, segs: seq<Seg>, open: Option<Seg>)
    requires Cover(segs + OpenSeq(open), meta) && Filled(segs)
    ensures var kept, live := segs[Stale(segs, meta)..], if open.Some? && meta <= open.value.Last() then open else None;
            var last := if live.Some? then live.value.Last() else if kept != [] then kept[|kept| - 1].Last() else meta - 1;
            Recovered(DirOf(meta, segs, open)) == Some(Image(meta, last, kept, live))
  {
    hide Chain, Listed, Stale, Names, Segs, Loads, LastOf;
    var n := Stale(segs, meta);
    CoverParts(segs, open, meta);
    ListedCover(segs, meta);
    KeptFacts(segs, meta, n);
  }

  lemma KeptFacts(segs: seq<Seg>, meta: nat, n: nat)
    requires Cover(segs, meta) && Filled(segs) && n <= |segs|
    ensures var kept := Names(segs[n..]);
            && Segs(kept) == segs[n..] && Loads(kept) && (kept == [] <==> n == |segs|)
            && LastOf(kept) == (if n == |segs| then -1 else segs[|segs| - 1].Last())
    ensures segs != [] ==> segs[|segs| - 1].Last() > 0
  {
    assert Segs(Names(segs[n..])) == segs[n..];
    if segs != [] {
      StartsGrow(segs, segs[0].first, 0, |segs| - 1);
    }
  }

  /** A restart on a directory that holds a cover succeeds, whatever the stored first index is, and shows what the
      cover holds from there on. */
  lemma RecoverCover(meta: nat, segs: seq<Seg>, open: Option<Seg>)
    requires Cover(segs + OpenSeq(open), meta) && Filled(segs)
    ensures Recovers(DirOf(meta, segs, open), Visible(segs + OpenSeq(open), meta))
  {
    hide Visible, Cover, Recovered, DirOf, Sound, Stale;
    RecoveredIs(meta, segs, open);
    var n := Stale(segs, meta);
    var kept, all := segs[n..], segs + OpenSeq(open);
    assert Filled(kept);
    if open.Some? && meta > open.value.Last() {
      CoverEnds(segs, open.value, meta);
      AllStale(all, meta);
      assert kept == [] && kept + OpenSeq(None) == [];
      SoundImage(meta, kept, None);
    } else {
      DropStale(all, meta, n);
      assert all[n..] == kept + OpenSeq(open);
      SoundImage(meta, kept, open);
    }
  }

  lemma SoundImage(meta: nat, kept: seq<Seg>, open: Option<Seg>)
    requires Cover(kept + OpenSeq(open), meta) && Filled(kept) && (kept != [] ==> kept[0].Last() >= meta)
    requires open.Some? ==> open.value.Last() >= meta
    ensures var last := if open.Some? then open.value.Last() else if kept != [] then kept[|kept| - 1].Last() else meta - 1;
            Sound(Image(meta, last, kept, open))
  {
    hide Visible, Cover;
    if kept + OpenSeq(open) == [] {
      AllStale(kept + OpenSeq(open), meta);
    } else {
      ReachesFirst(kept + OpenSeq(open), meta);
    }
  }

  lemma CoverGrows(segs: seq<Seg>, first: nat, i: nat, j: nat)
    requires Cover(segs, first) && i <= j < |segs|
    ensures segs[i].first <= segs[j].first && segs[i].Last() <= segs[j].Last()
    ensures i < j ==> segs[i].Last() < segs[j].first
  {
    StartsGrow(segs, segs[0].first, i, j);
  }

  lemma ReachesFirst(segs: seq<Seg>, first: nat)
    requires Cover(segs, first) && segs != [] && segs[0].Last() >= first
    ensures Visible(segs, first).Last() == segs[|segs| - 1].Last()
  {
    hide Visible;
    VisibleLast(segs, first);
    StartsGrow(segs, segs[0].first, 0, |segs| - 1);
  }

  lemma AllStale(segs: seq<Seg>, first: nat)
    requires Cover(segs, first) && forall i | 0 <= i < |segs| :: segs[i].Last() < first
    ensures Cover([], first) && Visible(segs, first) == Store(first, []) == Visible([], first)
  {
    DropStale(segs, first, |segs|);
    assert segs[|segs|..] == [];
  }

  lemma CoverParts(segs: seq<Seg>, open: Option<Seg>, first: nat)
    requires Cover(segs + OpenSeq(open), first)
    ensures Cover(segs, first)
    ensures open.Some? ==> open.value.first > 0 && (segs != [] ==> open.value.first == segs[|segs| - 1].Last() + 1)
  {
    var all := segs + OpenSeq(open);
    if segs != [] {
      ChainConcat(segs, OpenSeq(open), all[0].first);
      if open.Some? {
        Adjacent(all, all[0].first, |segs| - 1);
        StartsGrow(all, all[0].first, 0, |segs|);
      }
    }
  }

  lemma CoverEnds(segs: seq<Seg>, open: Seg, first: nat)
    requires Cover(segs + [open], first) && open.Last() < first
    ensures forall i | 0 <= i < |segs + [open]| :: (segs + [open])[i].Last() < first
    ensures Stale(segs, first) == |segs|
  {
    var all := segs + [open];
    forall i | 0 <= i < |all| ensures all[i].Last() < first {
      StartsGrow(all, all[0].first, i, |segs|);
    }
    assert forall i | 0 <= i < |segs| :: segs[i] == all[i];
  }

  lemma ListedCover(segs: seq<Seg>, meta: nat)
    requires Cover(segs, meta) && Filled(segs)
    ensures Listed(Names(segs), meta, -1) == Some(Names(segs[Stale(segs, meta)..]))
  {
    if segs != [] {
      ListedChain(segs, segs[0].first, meta, -1);
    }
  }
}
