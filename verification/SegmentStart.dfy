/** Starting the segmented storage on a directory, and the segmented storage beside the deque storage. */
module SegmentStart {
  import opened Types
  import opened LogStorages
  import opened SegmentChain
  import opened SegmentRecovery
  import opened SegmentImage
  import opened SegmentLogStorages

  /** Checks the closed files in order and drops those before the stored first index. */
  method ListSegments(files: seq<ClosedFile>, meta: nat) returns (kept: Option<seq<ClosedFile>>)
    ensures kept == Listed(files, meta, -1)
  {
    var last, i, out := -1, 0, [];
    ghost var all := Listed(files, meta, -1);
    assert files[0..] == files && (all.Some? ==> [] + all.value == all.value);
    while i < |files|
      invariant i <= |files|
      invariant var rest := Listed(files[i..], meta, last);
                Listed(files, meta, -1) == if rest.None? then None else Some(out + rest.value)
      invariant last == LastOf(out)
    {
      var f := files[i];
      assert files[i..][1..] == files[i + 1..];
      if f.first > f.last {
        return None;
      } else if last != -1 && f.first != last + 1 {
        return None;
      } else if last == -1 && meta < f.first {
        return None;
      } else if last == -1 && meta > f.last {
        i := i + 1;
        continue;
      }
      ghost var rest := Listed(files[i + 1..], meta, f.last);
      assert rest.Some? ==> out + ([f] + rest.value) == out + [f] + rest.value;
      out, last, i := out + [f], f.last, i + 1;
    }
    assert out + [] == out;
    kept := Some(out);
  }

  /** Loads the closed files and then the open one; a closed file must hold what its name says. */
  method LoadSegments(files: seq<ClosedFile>, open: Option<Seg>, meta: nat) returns (r: Option<Image>)
    ensures var live := if open.Some? && meta <= open.value.Last() then open else None;
            var last := if live.Some? then live.value.Last() else if files != [] then LastOf(files) else 0;
            r == if Loads(files) then Some(Image(meta, if last == 0 then meta - 1 else last, Segs(files), live)) else None
  {
    var last, i, segs := 0, 0, [];
    while i < |files|
      invariant i <= |files| && Loads(files[..i]) && segs == Segs(files[..i])
      invariant last == if i == 0 then 0 else files[i - 1].last
    {
      if files[i].last != files[i].first + |files[i].entries| - 1 {
        return None;
      }
      segs := segs + [Seg(files[i].first, files[i].entries)];
      last := files[i].last;
      i := i + 1;
    }
    assert files[..i] == files;
    var live := open;
    if open.Some? {
      if meta > open.value.Last() {
        live := None;
      } else {
        last := open.value.Last();
      }
    }
    if last == 0 {
      last := meta - 1;
    }
    r := Some(Image(meta, last, segs, live));
  }

  /** Start-up; more than one file in progress is refused, and so is an open file that starts before the closed ones
      end. */
  method Init(d: Dir) returns (r: Option<Image>)
    ensures r == Recovered(d)
  {
    hide Listed, Loads, Segs;
    if |d.open| > 1 {
      return None;
    }
    var open := if d.open == [] then None else Some(d.open[0]);
    var kept := ListSegments(d.closed, d.meta);
    if kept.None? {
      return None;
    }
    if open.Some? && LastOf(kept.value) > open.value.first - 1 {
      return None;
    }
    r := LoadSegments(kept.value, open, d.meta);
  }

  // ---- both storages side by side

  datatype Op =
    | Append(entries: seq<LogEntry>)
    | TruncatePrefix(firstIndexKept: nat)
    | TruncateSuffix(lastIndexKept: nat)
    | Reset(next: nat)

  /** What a caller may ask of either storage. */
  ghost predicate Allowed(s: Store, op: Op) {
    match op
    case Append(es) => Follows(s, es)
    case TruncatePrefix(k) => s.first <= k
    case TruncateSuffix(k) => s.first - 1 <= k <= s.Last()
    case Reset(next) => next > 0
  }

  function Applied(s: Store, op: Op): Store {
    match op
    case Append(es) => s.Append(es)
    case TruncatePrefix(k) => s.TruncatePrefix(k)
    case TruncateSuffix(k) => s.TruncateSuffix(k)
    case Reset(next) => s.Reset(next)
  }

  ghost predicate AllowedAll(s: Store, ops: seq<Op>)
    decreases |ops|
  {
    ops != [] ==> Allowed(s, ops[0]) && AllowedAll(Applied(s, ops[0]), ops[1..])
  }

  function AppliedAll(s: Store, ops: seq<Op>): Store
    decreases |ops|
  {
    if ops == [] then s else AppliedAll(Applied(s, ops[0]), ops[1..])
  }

  method Both(a: SegmentLogStorage, b: MemoryLogStorage, op: Op)
    requires a.Valid() && b.Valid() && a.View() == b.View() && Allowed(a.View(), op)
    modifies a, b
    ensures a.Valid() && b.Valid() && a.View() == b.View() == Applied(old(a.View()), op)
  {
    hide Sound, SegmentImage.View, DirOf, Store.Valid;
    LastSegment(a.Mem());
    SoundLast(a.Mem());
    match op {
      case Append(es) =>
        var n := a.AppendEntries(es, {});
        var _ := b.AppendEntries(es);
        assert n == |es| && es[..n] == es;
      case TruncatePrefix(k) =>
        var _ := a.TruncatePrefix(k);
        var _ := b.TruncatePrefix(k);
      case TruncateSuffix(k) =>
        var _ := a.TruncateSuffix(k);
        var _ := b.TruncateSuffix(k);
      case Reset(next) =>
        var _ := a.Reset(next);
        var _ := b.Reset(next);
    }
  }

  /** Whatever is asked of them, both storages hold the same log at the end, and answer alike for every index. */
  method RunBoth(a: SegmentLogStorage, b: MemoryLogStorage, ops: seq<Op>, index: int)
    returns (x: Option<LogEntry>, y: Option<LogEntry>)
    requires a.Valid() && b.Valid() && a.View() == b.View() && AllowedAll(a.View(), ops)
    modifies a, b
    ensures a.Valid() && b.Valid() && a.View() == b.View() == AppliedAll(old(a.View()), ops)
    ensures a.firstLogIndex == b.firstLogIndex && a.lastLogIndex == b.lastLogIndex
    ensures x == y == AppliedAll(old(a.View()), ops).Read(index)
  {
    hide Sound, SegmentImage.View, DirOf, Allowed, Applied, Store.Valid;
    var i := 0;
    while i < |ops|
      invariant i <= |ops| && a.Valid() && b.Valid() && a.View() == b.View() && AllowedAll(a.View(), ops[i..])
      invariant AppliedAll(a.View(), ops[i..]) == AppliedAll(old(a.View()), ops)
    {
      assert ops[i..][1..] == ops[i + 1..];
      Both(a, b, ops[i]);
      i := i + 1;
    }
    LastSegment(a.Mem());
    SoundLast(a.Mem());
    x := a.GetEntry(index);
    y := b.GetEntry(index);
  }
}
