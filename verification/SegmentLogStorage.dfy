/** The segmented log storage: an ordered map of closed segments and one open segment, kept in a directory.

    `disk` is the directory, changed by one file operation at a time; `trace` remembers every directory there ever was,
    which is where a crash may leave the storage. */
module SegmentLogStorages {
  import opened Types
  import opened LogStorages
  import opened SegmentChain
  import opened SegmentRecovery
  import opened SegmentCrash
  import opened SegmentImage
  import opened SegmentSuffix

  /** A restart shows `s` and some of the entries behind it. */
  ghost predicate Grown(d: Dir, s: Store, entries: seq<LogEntry>) {
    var r := Recovered(d);
    && r.Some? && Sound(r.value)
    && var v := SegmentImage.View(r.value); v.first == s.first && s.entries <= v.entries <= s.entries + entries
  }

  function Size(weigh: LogEntry -> nat, entries: seq<LogEntry>): nat {
    if entries == [] then 0 else weigh(entries[0]) + Size(weigh, entries[1..])
  }

  class SegmentLogStorage {
    const maxSegmentSize: nat
    const weigh: LogEntry -> nat
    var firstLogIndex: nat
    var lastLogIndex: int
    var segments: seq<Seg>
    var openSegment: Option<Seg>
    var disk: Dir
    ghost var trace: seq<Dir>

    function Mem(): Image
      reads this
    {
      Image(firstLogIndex, lastLogIndex, segments, openSegment)
    }

    ghost function View(): Store
      reads this
    {
      SegmentImage.View(Mem())
    }

    ghost predicate Valid()
      reads this
    {
      Sound(Mem()) && disk == DirOf(firstLogIndex, segments, openSegment)
    }

    /** A storage started on what a restart found. */
    constructor (maxSegmentSize: nat, weigh: LogEntry -> nat, m: Image)
      requires Sound(m)
      ensures Valid() && Mem() == m && trace == []
    {
      this.maxSegmentSize, this.weigh := maxSegmentSize, weigh;
      firstLogIndex, lastLogIndex, segments, openSegment := m.first, m.last, m.segments, m.open;
      disk, trace := DirOf(m.first, m.segments, m.open), [];
    }

    // ---- reading

    /** The segment that holds an index: the open one, or the closed one before the first that starts behind it. */
    method GetSegment(index: int) returns (r: Option<Seg>)
      requires Valid()
      ensures r.Some? <==> View().Has(index)
      ensures r.Some? ==> r.value.first <= index <= r.value.Last()
                          && r.value.entries[index - r.value.first] == View().Get(index)
    {
      hide Sound, SegmentImage.View;
      LastSegment(Mem());
      SoundLast(Mem());
      if firstLogIndex == lastLogIndex + 1 {
        return None;
      }
      if index < firstLogIndex || index > lastLogIndex + 1 {
        return None;
      } else if index == lastLogIndex + 1 {
        return None;
      }
      if openSegment.Some? && index >= openSegment.value.first {
        InSegment(Mem(), |segments|, index);
        return openSegment;
      }
      var i := 0;
      while i < |segments| && segments[i].first <= index
        invariant i <= |segments| && forall j | 0 <= j < i :: segments[j].first <= index
      {
        i := i + 1;
      }
      FoundSegment(Mem(), i, index);
      InSegment(Mem(), i - 1, index);
      r := Some(segments[i - 1]);
    }

    method GetEntry(index: int) returns (entry: Option<LogEntry>)
      requires Valid()
      ensures entry == View().Read(index)
    {
      var s := GetSegment(index);
      entry := if s.None? then None else Some(s.value.entries[index - s.value.first]);
    }

    method GetTerm(index: int) returns (term: nat)
      requires Valid()
      ensures term == View().Term(index)
    {
      var s := GetSegment(index);
      term := if s.None? then 0 else s.value.entries[index - s.value.first].id.term;
    }

    // ---- file operations

    /** One file operation takes the directory to `d`. */
    method Operate(d: Dir)
      modifies `disk, `trace
      ensures disk == d && trace == old(trace) + [d]
    {
      disk := d;
      trace := trace + [d];
    }

    method UnlinkAll(popped: seq<Handle>)
      modifies `disk, `trace
      ensures disk == UnlinkedAll(old(disk), popped) && trace == old(trace) + Trail(old(disk), popped)
    {
      hide Unlinked;
      var i := 0;
      while i < |popped|
        invariant i <= |popped| && UnlinkedAll(disk, popped[i..]) == UnlinkedAll(old(disk), popped)
        invariant trace + Trail(disk, popped[i..]) == old(trace) + Trail(old(disk), popped)
      {
        assert popped[i..][1..] == popped[i + 1..];
        assert trace + ([Unlinked(disk, popped[i])] + Trail(Unlinked(disk, popped[i]), popped[i + 1..]))
            == trace + [Unlinked(disk, popped[i])] + Trail(Unlinked(disk, popped[i]), popped[i + 1..]);
        Operate(Unlinked(disk, popped[i]));
        i := i + 1;
      }
    }

    // ---- appending

    /** The segment to append to: a full one is closed and a new one created. `io` is false when the file operations
        that this takes fail. */
    method OpenSegment(io: bool) returns (ready: bool)
      requires Valid()
      modifies this
      ensures Valid() && View() == old(View()) && firstLogIndex == old(firstLogIndex) && lastLogIndex == old(lastLogIndex)
      ensures ready <==> io || (old(openSegment).Some? && Size(weigh, old(openSegment).value.entries) <= maxSegmentSize)
      ensures ready ==> openSegment.Some? && Size(weigh, openSegment.value.entries) <= maxSegmentSize
      ensures if ready && old(openSegment).Some? && Size(weigh, old(openSegment).value.entries) > maxSegmentSize
              then segments == old(segments) + [old(openSegment).value] && openSegment == Some(Seg(lastLogIndex + 1, []))
              else && segments == old(segments)
                   && openSegment == if ready && old(openSegment).None? then Some(Seg(lastLogIndex + 1, [])) else old(openSegment)
      ensures old(trace) <= trace && forall i | |old(trace)| <= i < |trace| :: Recovers(trace[i], View())
    {
      hide Sound, SegmentImage.View, Recovers, DirOf;
      ghost var m := Mem();
      LastSegment(m);
      if openSegment.None? {
        if !io {
          return false;
        }
        var s := Seg(lastLogIndex + 1, []);
        OpenAdded(m, s);
        openSegment := Some(s);
        Operate(disk.(open := disk.open + [s]));
        Created(Mem());
      }
      m := Mem();
      if Size(weigh, openSegment.value.entries) > maxSegmentSize {
        if !io {
          return false;
        }
        var s := openSegment.value;
        Rolled(m);
        segments, openSegment := segments + [s], None;
        Operate(Dir(disk.meta, disk.closed + [Named(s)], WithoutOpen(disk.open, s.first)));
        Closed(m, Mem());
        var s1 := Seg(lastLogIndex + 1, []);
        OpenAdded(Mem(), s1);
        openSegment := Some(s1);
        Operate(disk.(open := disk.open + [s1]));
        Created(Mem());
      }
      ready := true;
    }

    /** Writes one entry to the open segment, which only takes the next index. */
    method PutEntry(entry: LogEntry) returns (code: int)
      requires Valid() && openSegment.Some?
      modifies this
      ensures Valid() && code == (if entry.id.index == old(lastLogIndex) + 1 then 0 else ERANGE)
      ensures firstLogIndex == old(firstLogIndex) && lastLogIndex == old(lastLogIndex) + (if code == 0 then 1 else 0)
      ensures View() == if code == 0 then old(View()).Append([entry]) else old(View())
      ensures trace == old(trace) + (if code == 0 then [disk] else []) && Recovers(disk, View())
    {
      hide Sound, SegmentImage.View, Recovers, Names;
      LastSegment(Mem());
      Created(Mem());
      var s := openSegment.value;
      if entry.id.index != s.Last() + 1 {
        return ERANGE;
      }
      Put(Mem(), entry);
      openSegment := Some(Seg(s.first, s.entries + [entry]));
      lastLogIndex := lastLogIndex + 1;
      Operate(disk.(open := [openSegment.value]));
      Created(Mem());
      code := 0;
    }

    /** Appends as many entries as follow the log and can be written; entries whose number is in `faults` cannot. */
    method AppendEntries(entries: seq<LogEntry>, faults: set<nat>) returns (n: int)
      requires Valid()
      modifies this
      ensures Valid() && -1 <= n <= |entries|
      ensures n == -1 <==> entries != [] && entries[0].id.index != old(lastLogIndex) + 1
      ensures View() == old(View()).Append(entries[..if n == -1 then 0 else n])
      ensures forall i | 0 <= i < n :: i !in faults && entries[i].id.index == old(lastLogIndex) + 1 + i
      ensures 0 <= n < |entries| ==> n in faults || entries[n].id.index != old(lastLogIndex) + 1 + n
      ensures old(trace) <= trace && forall i | |old(trace)| <= i < |trace| :: Grown(trace[i], old(View()), entries)
    {
      hide Sound, SegmentImage.View, Recovers, DirOf, Grown;
      assert old(View()).Append([]) == old(View());
      if entries == [] {
        return 0;
      }
      if lastLogIndex + 1 != entries[0].id.index {
        return -1;
      }
      var i := 0;
      while i < |entries|
        invariant i <= |entries| && Valid() && lastLogIndex == old(lastLogIndex) + i
        invariant View() == old(View()).Append(entries[..i])
        invariant forall j | 0 <= j < i :: j !in faults && entries[j].id.index == old(lastLogIndex) + 1 + j
        invariant old(trace) <= trace && forall j | |old(trace)| <= j < |trace| :: Grown(trace[j], old(View()), entries)
      {
        var ready := OpenSegment(i !in faults);
        ShowsSome(old(View()), entries, i);
        if !ready || i in faults {
          return i;
        }
        var code := PutEntry(entries[i]);
        if code != 0 {
          return i;
        }
        assert entries[..i] + [entries[i]] == entries[..i + 1];
        assert old(View()).Append(entries[..i]).Append([entries[i]]) == old(View()).Append(entries[..i + 1]);
        ShowsSome(old(View()), entries, i + 1);
        i := i + 1;
      }
      n := |entries|;
    }

    // ---- cutting the front

    /** Takes the closed segments that lie before `firstIndexKept` out of the map. */
    static method PopClosed(segs: seq<Seg>, firstIndexKept: nat) returns (rest: seq<Seg>, popped: seq<Handle>)
      ensures var n := Stale(segs, firstIndexKept); rest == segs[n..] && popped == FromFront(segs, n)
    {
      hide Stale;
      rest, popped := segs, [];
      ghost var i := 0;
      while rest != [] && rest[0].Last() < firstIndexKept
        invariant i <= |segs| && rest == segs[i..]
        invariant Stale(segs, firstIndexKept) == i + Stale(rest, firstIndexKept)
        invariant popped + FromFront(rest, Stale(rest, firstIndexKept)) == FromFront(segs, Stale(segs, firstIndexKept))
        decreases |rest|
      {
        StaleStep(rest, firstIndexKept);
        popped := popped + [Handle(rest[0], false)];
        rest := rest[1..];
        i := i + 1;
      }
      StaleEnd(rest, firstIndexKept);
    }

    /** The check that the open segment starts early enough always holds. */
    method PopSegments(firstIndexKept: nat) returns (popped: seq<Handle>)
      requires Sound(Mem()) && firstLogIndex < firstIndexKept
      modifies `firstLogIndex, `lastLogIndex, `segments, `openSegment
      ensures Mem() == DropFront(old(Mem()), firstIndexKept)
      ensures popped == FrontHandles(old(Mem()), firstIndexKept)
    {
      hide Sound, Stale, FromFront;
      firstLogIndex := firstIndexKept;
      segments, popped := PopClosed(segments, firstIndexKept);
      if segments != [] {
        return;
      }
      if openSegment.Some? {
        if openSegment.value.Last() < firstIndexKept {
          popped := popped + [Handle(openSegment.value, true)];
          openSegment := None;
          lastLogIndex := firstIndexKept - 1;
        } else {
          OpenStart(old(Mem()), firstIndexKept);
          assert openSegment.value.first <= firstIndexKept;
        }
      } else {
        lastLogIndex := firstIndexKept - 1;
      }
    }

    /** The first index is stored before any file goes, so a crash shows the log before or after. */
    method TruncatePrefix(firstIndexKept: nat) returns (code: int)
      requires Valid()
      modifies this
      ensures Valid() && code == 0 && View() == old(View()).TruncatePrefix(firstIndexKept)
      ensures old(trace) <= trace && forall i | |old(trace)| <= i < |trace| :: Recovers(trace[i], View())
    {
      hide Sound, Recovers, DirOf, DropFront, FrontHandles, SegmentImage.View;
      code := 0;
      LastSegment(Mem());
      if firstLogIndex >= firstIndexKept {
        return;
      }
      PrefixSteps(Mem(), firstIndexKept);
      Operate(disk.(meta := firstIndexKept));
      var popped := PopSegments(firstIndexKept);
      UnlinkAll(popped);
    }

    // ---- cutting the back

    /** Takes the closed segments that start behind `lastIndexKept` out of the map, the last one first. */
    static method PopClosedBack(segs: seq<Seg>, lastIndexKept: nat) returns (rest: seq<Seg>, popped: seq<Handle>)
      ensures var n := Reach(segs, lastIndexKept); rest == segs[..n] && popped == FromBack(segs, n)
    {
      hide Reach;
      rest, popped := segs, [];
      while rest != [] && rest[|rest| - 1].first > lastIndexKept
        invariant rest <= segs && Reach(segs, lastIndexKept) == Reach(rest, lastIndexKept)
        invariant popped + FromBack(rest, Reach(rest, lastIndexKept)) == FromBack(segs, Reach(segs, lastIndexKept))
        decreases |rest|
      {
        ReachStep(rest, lastIndexKept);
        popped := popped + [Handle(rest[|rest| - 1], false)];
        rest := rest[..|rest| - 1];
      }
      ReachEnd(rest, lastIndexKept);
    }

    method PopSegmentsFromBack(lastIndexKept: nat) returns (popped: seq<Handle>, lastSegment: Option<Handle>)
      modifies `firstLogIndex, `lastLogIndex, `segments, `openSegment
      ensures var m, n := old(Mem()), Reach(old(segments), lastIndexKept);
              if OpenStays(m, lastIndexKept)
              then popped == [] && lastSegment == Some(Handle(m.open.value, true)) && Mem() == m.(last := lastIndexKept)
              else && popped == OpenHandles(m.open) + FromBack(m.segments, n)
                   && lastSegment == (if n > 0 then Some(Handle(m.segments[n - 1], false)) else None)
                   && Mem() == Image(if n > 0 then m.first else lastIndexKept + 1, lastIndexKept, m.segments[..n], None)
    {
      hide Reach, FromBack;
      lastLogIndex := lastIndexKept;
      popped := OpenHandles(openSegment);
      if openSegment.Some? {
        if openSegment.value.first <= lastIndexKept {
          return [], Some(Handle(openSegment.value, true));
        }
        openSegment := None;
      }
      var closed;
      segments, closed := PopClosedBack(segments, lastIndexKept);
      popped := popped + closed;
      if segments != [] {
        lastSegment := Some(Handle(segments[|segments| - 1], false));
      } else {
        lastSegment := None;
        firstLogIndex := lastIndexKept + 1;
      }
    }

    /** Cuts the last segment: a closed file is renamed first. */
    method TruncateSegment(h: Handle, lastIndexKept: nat, ghost m: Image)
      requires Sound(m) && m.first <= lastIndexKept <= m.last
      requires Mem() == Image(m.first, lastIndexKept, m.segments[..Left(m, lastIndexKept)], OpenLeft(m, lastIndexKept))
      requires disk == DirOf(firstLogIndex, segments, openSegment)
      requires if OpenStays(m, lastIndexKept) then h == Handle(m.open.value, true)
               else segments != [] && h == Handle(segments[|segments| - 1], false)
      modifies `segments, `openSegment, `disk, `trace
      ensures Mem() == CutBack(m, lastIndexKept) && disk == DirOf(firstLogIndex, segments, openSegment)
      ensures old(trace) <= trace
      ensures forall i | |old(trace)| <= i < |trace| :: CutDown(trace[i], SegmentImage.View(m), lastIndexKept)
    {
      hide Sound, Reach, CutDown, DirOf, SegmentImage.View, Cover, Without;
      CutDone(m, lastIndexKept);
      OpenReplaced(m.first);
      if lastIndexKept >= h.seg.Last() {
        return;
      }
      if !h.isOpen {
        Reopened(m, lastIndexKept);
        Operate(Dir(disk.meta, Without(disk.closed, h.seg.first, h.seg.Last()), disk.open + [h.seg]));
        segments, openSegment := segments[..|segments| - 1], Some(h.seg);
      }
      Operate(disk.(open := [h.seg.Cut(lastIndexKept)]));
      openSegment := Some(h.seg.Cut(lastIndexKept));
    }

    /** Takes everything behind `lastIndexKept` out of the map; `truncate` tells that the last segment left, if any, is
        to be cut. When nothing is left to show, that segment goes as well. */
    method Collect(lastIndexKept: nat) returns (popped: seq<Handle>, lastSegment: Option<Handle>, truncate: bool)
      requires Sound(Mem()) && firstLogIndex - 1 <= lastIndexKept <= lastLogIndex
      modifies `firstLogIndex, `lastLogIndex, `segments, `openSegment
      ensures popped == BackHandles(old(Mem()), lastIndexKept)
      ensures var m := old(Mem());
              && Mem() == Image(m.first, lastIndexKept, m.segments[..Left(m, lastIndexKept)], OpenLeft(m, lastIndexKept))
              && (truncate <==> m.first <= lastIndexKept)
      ensures truncate ==>
                lastSegment == if OpenStays(old(Mem()), lastIndexKept) then Some(Handle(old(openSegment).value, true))
                               else if segments != [] then Some(Handle(segments[|segments| - 1], false)) else None
    {
      hide Sound, Reach, FromBack, BackHandles;
      ghost var m, n := Mem(), Reach(segments, lastIndexKept);
      Collected(m, lastIndexKept);
      assert m.segments[..n][..|m.segments[..n]|] == m.segments[..n] && m.segments[..|m.segments|] == m.segments;
      popped, lastSegment := PopSegmentsFromBack(lastIndexKept);
      truncate := false;
      if lastSegment.Some? {
        if firstLogIndex <= lastLogIndex {
          truncate := true;
        } else {
          popped := popped + [lastSegment.value];
          if lastSegment.value.isOpen {
            openSegment := None;
          } else {
            segments := segments[..|segments| - 1];
          }
        }
      }
    }

    /** Files go from the back to the front, so a crash shows the log cut behind some index from `lastIndexKept` on.
        A storage without any file answers -1. */
    method TruncateSuffix(lastIndexKept: nat) returns (code: int)
      requires Valid() && firstLogIndex - 1 <= lastIndexKept <= lastLogIndex
      modifies this
      ensures Valid() && View() == old(View()).TruncateSuffix(lastIndexKept)
      ensures code == if old(Mem().All()) == [] then -1 else 0
      ensures old(trace) <= trace
      ensures forall i | |old(trace)| <= i < |trace| :: CutDown(trace[i], old(View()), lastIndexKept)
    {
      hide Sound, CutDown, DirOf, SegmentImage.View, Left, OpenLeft, CutBack;
      ghost var m := Mem();
      SuffixUnlinks(m, lastIndexKept);
      CutBackOk(m, lastIndexKept);
      SuffixEnd(m, lastIndexKept);
      var popped, lastSegment, truncate := Collect(lastIndexKept);
      code := -1;
      UnlinkAll(popped);
      if popped != [] {
        code := 0;
      }
      if truncate {
        TruncateSegment(lastSegment.value, lastIndexKept, m);
        code := 0;
      }
    }

    // ---- resetting

    /** A crash on the way shows the reset log whenever the new first index lies behind everything stored, and not
        otherwise. */
    method Reset(nextLogIndex: int) returns (code: int)
      requires Valid()
      modifies this
      ensures Valid() && code == if nextLogIndex > 0 then 0 else EINVAL
      ensures View() == if nextLogIndex > 0 then old(View()).Reset(nextLogIndex) else old(View())
      ensures old(trace) <= trace && (trace == old(trace) <==> nextLogIndex <= 0)
      ensures nextLogIndex > 0 ==>
                ((forall d | d in trace[|old(trace)|..] :: Recovers(d, View())) <==> ResetSafe(old(Mem().All()), nextLogIndex))
    {
      hide Recovers, UnlinkedAll;
      if nextLogIndex <= 0 {
        return EINVAL;
      }
      ghost var m := Mem();
      ResetSteps(m, nextLogIndex);
      var popped := AllHandles(Mem());
      segments, openSegment := [], None;
      firstLogIndex, lastLogIndex := nextLogIndex, nextLogIndex - 1;
      Operate(disk.(meta := nextLogIndex));
      ghost var d := disk;
      UnlinkAll(popped);
      assert trace[|old(trace)|..] == [d] + Trail(d, popped);
      assert Mem().All() == [];
      code := 0;
    }
  }

  lemma SoundLast(m: Image)
    requires Sound(m)
    ensures m.last == SegmentImage.View(m).Last()
  {
  }

  lemma InSegment(m: Image, i: nat, index: nat)
    requires Sound(m) && i < |m.All()| && m.first <= index && m.All()[i].first <= index <= m.All()[i].Last()
    ensures SegmentImage.View(m).Has(index)
    ensures SegmentImage.View(m).Get(index) == m.All()[i].entries[index - m.All()[i].first]
  {
    hide Chain, Flat;
    LastSegment(m);
    CoverGrows(m.All(), m.first, i, |m.All()| - 1);
    EntryOf(m.All(), m.All()[0].first, i, index);
  }

  /** The last closed segment that starts no later than `index` holds it. */
  lemma FoundSegment(m: Image, i: nat, index: nat)
    requires Sound(m) && m.first <= index <= m.last && i <= |m.segments| && (m.open.None? || index < m.open.value.first)
    requires forall j | 0 <= j < i :: m.segments[j].first <= index
    requires i < |m.segments| ==> m.segments[i].first > index
    ensures i > 0 && m.segments[i - 1].first <= index <= m.segments[i - 1].Last()
  {
    hide Visible, Filled, Chain;
    LastSegment(m);
    var all := m.All();
    assert all[0].first <= index;
    if i < |all| {
      assert all[i].first > index;
      Adjacent(all, all[0].first, i - 1);
    }
  }

  /** The directory after the last step of creating a segment. */
  lemma Created(m: Image)
    requires Sound(m) && m.open.Some?
    ensures DirOf(m.first, m.segments, None).(open := DirOf(m.first, m.segments, None).open + [m.open.value])
         == DirOf(m.first, m.segments, m.open)
    ensures Recovers(DirOf(m.first, m.segments, m.open), SegmentImage.View(m))
  {
    RecoverCover(m.first, m.segments, m.open);
  }

  lemma Closed(m: Image, r: Image)
    requires Sound(r) && m.open.Some? && r == m.(segments := m.segments + [m.open.value], open := None)
    ensures var d, s := DirOf(m.first, m.segments, m.open), m.open.value;
            Dir(d.meta, d.closed + [Named(s)], WithoutOpen(d.open, s.first)) == DirOf(m.first, r.segments, None)
    ensures Recovers(DirOf(m.first, r.segments, None), SegmentImage.View(r))
  {
    UnlinkOpen(m.first, m.segments, m.open.value);
    RecoverCover(m.first, r.segments, None);
  }

  lemma ShowsSome(s: Store, entries: seq<LogEntry>, i: nat)
    requires i <= |entries|
    ensures forall d | Recovers(d, s.Append(entries[..i])) :: Grown(d, s, entries)
  {
  }

  /** What `pop_segments` removes, in its order. */
  function FrontHandles(m: Image, k: nat): seq<Handle> {
    var n := Stale(m.segments, k);
    FromFront(m.segments, n)
    + if n == |m.segments| && m.open.Some? && m.open.value.Last() < k then OpenHandles(m.open) else []
  }

  lemma StaleStep(segs: seq<Seg>, first: nat)
    requires segs != [] && segs[0].Last() < first
    ensures Stale(segs, first) == 1 + Stale(segs[1..], first)
    ensures FromFront(segs, Stale(segs, first)) == [Handle(segs[0], false)] + FromFront(segs[1..], Stale(segs[1..], first))
  {
  }

  lemma StaleEnd(segs: seq<Seg>, first: nat)
    requires segs == [] || segs[0].Last() >= first
    ensures Stale(segs, first) == 0 && FromFront(segs, 0) == []
  {
  }

  lemma OpenStart(m: Image, k: nat)
    requires Sound(m) && m.first < k && m.open.Some? && Stale(m.segments, k) == |m.segments|
    ensures m.open.value.first <= k
  {
    CoverParts(m.segments, m.open, m.first);
  }

  /** Every directory from the stored first index on shows the log cut at the front. */
  lemma PrefixSteps(m: Image, k: nat)
    requires Sound(m) && m.first < k
    ensures var d, r, hs := DirOf(k, m.segments, m.open), DropFront(m, k), FrontHandles(m, k);
            && DirOf(m.first, m.segments, m.open).(meta := k) == d
            && Sound(r) && r.first == k && SegmentImage.View(r) == SegmentImage.View(m).TruncatePrefix(k)
            && Recovers(d, SegmentImage.View(r)) && UnlinkedAll(d, hs) == DirOf(k, r.segments, r.open)
            && forall x | x in Trail(d, hs) :: Recovers(x, SegmentImage.View(r))
  {
    hide Recovers, Visible, Cover, Stale;
    var d, n := DirOf(k, m.segments, m.open), Stale(m.segments, k);
    DropFrontOk(m, k);
    VisibleFurther(m.All(), m.first, k);
    RecoverCover(k, m.segments, m.open);
    FrontTrail(k, m.segments, m.open, n);
    CoverParts(m.segments, m.open, m.first);
    CoverChain(m.segments, m.first);
    FrontGone(k, m.segments, m.open, n);
    if n == |m.segments| && m.open.Some? && m.open.value.Last() < k {
      var hs := FromFront(m.segments, n);
      TrailConcat(d, hs, OpenHandles(m.open));
      assert m.segments[n..] == [];
      UnlinkOpen(k, [], m.open.value);
      AllStale(m.All(), k);
      RecoverCover(k, [], None);
    } else {
      assert FromFront(m.segments, n) + [] == FromFront(m.segments, n);
    }
  }

  lemma ReachStep(segs: seq<Seg>, k: nat)
    requires segs != [] && segs[|segs| - 1].first > k
    ensures Reach(segs, k) == Reach(segs[..|segs| - 1], k)
    ensures FromBack(segs, Reach(segs, k))
         == [Handle(segs[|segs| - 1], false)] + FromBack(segs[..|segs| - 1], Reach(segs[..|segs| - 1], k))
  {
  }

  lemma ReachEnd(segs: seq<Seg>, k: nat)
    requires segs == [] || segs[|segs| - 1].first <= k
    ensures Reach(segs, k) == |segs| && FromBack(segs, |segs|) == []
  {
  }

  lemma OpenReplaced(first: nat)
    ensures forall segs, open: Option<Seg>, t: Seg {:trigger DirOf(first, segs, open), Some(t)} ::
              DirOf(first, segs, open).(open := [t]) == DirOf(first, segs, Some(t))
  {
  }

  lemma CoverChain(segs: seq<Seg>, first: nat)
    requires Cover(segs, first)
    ensures segs != [] ==> Chain(segs, segs[0].first)
  {
  }

  lemma SuffixEnd(m: Image, k: nat)
    requires Sound(m) && m.first - 1 <= k <= m.last
    ensures k < m.first ==> CutBack(m, k) == Image(m.first, k, m.segments[..Left(m, k)], OpenLeft(m, k))
    ensures k < m.first ==> (BackHandles(m, k) == [] <==> m.All() == [])
    ensures m.first <= k ==> m.All() != [] && (OpenStays(m, k) || Left(m, k) > 0)
    ensures CutBack(m, k).first == m.first
  {
    LastSegment(m);
    LeftBounds(m, k);
  }
}
