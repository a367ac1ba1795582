/** The ids the disk thread keeps: which id is the last one on disk, and why the answer to that question is right. */
module DiskIds {
  import opened Types
  import opened LogStorages
  import opened DiskQueues

  /** A cut names the entry it keeps last. */
  ghost predicate CutNamed(s: Store, tasks: seq<Task>, k: nat)
    requires k < |tasks|
  {
    var stage, t := Replay(s, tasks[..k]), tasks[k];
    t.TruncateSuffix? && stage.Has(t.index) ==> stage.Get(t.index).id == LogId(t.index, t.term)
  }

  ghost predicate Named(s: Store, tasks: seq<Task>) {
    forall k {:trigger CutNamed(s, tasks, k)} | 0 <= k < |tasks| :: CutNamed(s, tasks, k)
  }

  lemma NamedOneMore(s: Store, tasks: seq<Task>, log: Store, t: Task)
    requires Leads(s, tasks, log) && Named(s, tasks)
    requires t.TruncateSuffix? && log.Has(t.index) ==> log.Get(t.index).id == LogId(t.index, t.term)
    ensures Named(s, tasks + [t])
  {
    var more := tasks + [t];
    LeadsFacts(s, tasks, log);
    forall k | 0 <= k < |more|
      ensures CutNamed(s, more, k)
    {
      if k < |tasks| {
        assert more[..k] == tasks[..k] && CutNamed(s, tasks, k);
      } else {
        assert more[..k] == tasks;
      }
    }
  }

  lemma NamedShift(s: Store, tasks: seq<Task>)
    requires Named(s, tasks) && tasks != []
    ensures Named(Apply(s, tasks[0]), tasks[1..])
  {
    forall k | 0 <= k < |tasks| - 1
      ensures CutNamed(Apply(s, tasks[0]), tasks[1..], k)
    {
      var next := k + 1;
      var front := tasks[..next];
      assert CutNamed(s, tasks, next) && front[1..] == tasks[1..][..k];
      ReplayShift(s, front);
    }
  }

  /** A cut keeps an id that was written before; an append goes above everything before it. */
  ghost predicate TaskIdOk(tasks: seq<Task>, seen: LogId, k: nat)
    requires k < |tasks|
  {
    var bound := Bound(seen, tasks[..k]);
    match tasks[k]
    case TruncateSuffix(index, term) => bound.AtLeast(LogId(index, term))
    case Append(es) => es != [] && Less(bound, LastIdOf(es))
    case _ => true
  }

  /** Ids grow along the log, from the entry dropped before it on, and none is above what will have been written. */
  ghost predicate Growing(log: Store, dropped: LogId, bound: LogId) {
    && (forall i {:trigger log.entries[i]} | 0 <= i < |log.entries| :: bound.AtLeast(log.entries[i].id))
    && (forall i {:trigger log.entries[i]} | 0 < i < |log.entries| :: Less(log.entries[i - 1].id, log.entries[i].id))
    && (log.entries != [] ==> Less(dropped, log.entries[0].id))
  }

  ghost predicate Tracks(tasks: seq<Task>, log: Store, written: LogId, dropped: LogId) {
    && (forall k {:trigger TaskIdOk(tasks, written, k)} | 0 <= k < |tasks| :: TaskIdOk(tasks, written, k))
    && Growing(log, dropped, Bound(written, tasks))
  }

  /** Entries that may follow: above everything written or queued, above the entry dropped last, and growing. */
  ghost predicate Rising(bound: LogId, dropped: LogId, es: seq<LogEntry>) {
    && (forall k {:trigger es[k]} | 0 <= k < |es| :: Less(bound, es[k].id) && Less(dropped, es[k].id))
    && (forall k {:trigger es[k]} | 0 < k < |es| :: Less(es[k - 1].id, es[k].id))
  }

  lemma {:induction false} RisingLast(bound: LogId, snapshot: LogId, es: seq<LogEntry>, k: nat)
    requires Rising(bound, snapshot, es) && k < |es|
    ensures LastIdOf(es).AtLeast(es[k].id)
    decreases |es| - k
  {
    if k + 1 < |es| {
      RisingLast(bound, snapshot, es, k + 1);
    }
  }

  /** The id of the entry right before `index`, which lies in the log or right behind it. */
  function IdBefore(log: Store, dropped: LogId, index: nat): LogId {
    if log.Has(index - 1) then log.Get(index - 1).id else dropped
  }

  lemma BeforeStart(log: Store, dropped: LogId)
    ensures IdBefore(log, dropped, log.first) == dropped
  {
  }

  /** The id that a cut keeps last was written before. */
  lemma CutId(log: Store, dropped: LogId, bound: LogId, index: nat)
    requires Growing(log, dropped, bound) && log.first - 1 <= index < log.Last()
    ensures bound.AtLeast(IdBefore(log, dropped, index + 1))
  {
    assert bound.AtLeast(log.Get(index + 1).id);
  }

  /** The queue with one more task. */
  lemma TasksOneMore(tasks: seq<Task>, log: Store, written: LogId, dropped: LogId, t: Task)
    requires Tracks(tasks, log, written, dropped)
    requires t.TruncateSuffix? ==> Bound(written, tasks).AtLeast(LogId(t.index, t.term))
    requires t.Append? ==> t.entries != [] && Less(Bound(written, tasks), LastIdOf(t.entries))
    ensures forall k {:trigger TaskIdOk(tasks + [t], written, k)} | 0 <= k <= |tasks| :: TaskIdOk(tasks + [t], written, k)
    ensures !t.Append? ==> Bound(written, tasks + [t]) == Bound(written, tasks)
  {
    var more := tasks + [t];
    BoundOneMore(written, tasks, t);
    assert more[..|tasks|] == tasks;
    forall k | 0 <= k < |more|
      ensures TaskIdOk(more, written, k)
    {
      if k < |tasks| {
        assert more[..k] == tasks[..k];
        assert TaskIdOk(tasks, written, k);
      }
    }
  }

  lemma TracksCut(tasks: seq<Task>, log: Store, written: LogId, dropped: LogId, t: Task)
    requires Tracks(tasks, log, written, dropped) && t.TruncateSuffix? && log.first - 1 <= t.index < log.Last()
    requires IdBefore(log, dropped, t.index + 1) == LogId(t.index, t.term)
    ensures Tracks(tasks + [t], Apply(log, t), written, dropped)
    ensures Bound(written, tasks + [t]) == Bound(written, tasks)
  {
    CutId(log, dropped, Bound(written, tasks), t.index);
    TasksOneMore(tasks, log, written, dropped, t);
  }

  lemma TracksAppend(tasks: seq<Task>, log: Store, written: LogId, dropped: LogId, t: Task)
    requires Tracks(tasks, log, written, dropped) && t.Append? && t.entries != []
    requires Rising(Bound(written, tasks), dropped, t.entries)
    ensures Tracks(tasks + [t], Apply(log, t), written, dropped)
  {
    hide TaskIdOk;
    TasksOneMore(tasks, log, written, dropped, t);
    BoundOneMore(written, tasks, t);
    GrowingAppend(log, t.entries, dropped, Bound(written, tasks), Bound(written, tasks + [t]));
  }

  lemma GrowingAppend(log: Store, es: seq<LogEntry>, dropped: LogId, bound: LogId, more: LogId)
    requires Growing(log, dropped, bound) && Rising(bound, dropped, es) && es != [] && more == LastIdOf(es)
    ensures Growing(log.Append(es), dropped, more)
  {
    var after, n := log.Append(es), |log.entries|;
    forall i | 0 <= i < |after.entries|
      ensures more.AtLeast(after.entries[i].id)
      ensures i > 0 ==> Less(after.entries[i - 1].id, after.entries[i].id)
    {
      RisingLast(bound, dropped, es, if i < n then 0 else i - n);
      if i >= n {
        assert after.entries[i] == es[i - n];
        if i > n {
          assert after.entries[i - 1] == es[i - n - 1];
        }
      }
    }
  }

  lemma TracksDrop(tasks: seq<Task>, log: Store, written: LogId, dropped: LogId, t: Task, newDropped: LogId)
    requires Tracks(tasks, log, written, dropped) && t.TruncatePrefix? && Fits(log, t)
    requires t.index <= log.Last() ==> newDropped == IdBefore(log, dropped, t.index)
    ensures Tracks(tasks + [t], Apply(log, t), written, newDropped)
  {
    hide TaskIdOk, Bound;
    TasksOneMore(tasks, log, written, dropped, t);
    GrowingDrop(log, t, dropped, Bound(written, tasks), newDropped);
  }

  lemma GrowingDrop(log: Store, t: Task, dropped: LogId, bound: LogId, newDropped: LogId)
    requires Growing(log, dropped, bound) && t.TruncatePrefix? && Fits(log, t)
    requires t.index <= log.Last() ==> newDropped == IdBefore(log, dropped, t.index)
    ensures Growing(Apply(log, t), newDropped, bound)
  {
    var after := Apply(log, t);
    var n := |log.entries| - |after.entries|;
    forall i | 0 <= i < |after.entries|
      ensures bound.AtLeast(after.entries[i].id) && (i > 0 ==> Less(after.entries[i - 1].id, after.entries[i].id))
      ensures i == 0 ==> Less(newDropped, after.entries[i].id)
    {
      assert after.entries[i] == log.entries[n + i];
      if i > 0 {
        assert after.entries[i - 1] == log.entries[n + i - 1];
      }
    }
  }

  /** Tasks after which the log is empty, or the same. */
  lemma TracksQuiet(tasks: seq<Task>, log: Store, written: LogId, dropped: LogId, t: Task, newDropped: LogId)
    requires Tracks(tasks, log, written, dropped)
    requires t.Reset? || ((t.Done? || t.LastLogId?) && newDropped == dropped)
    ensures Tracks(tasks + [t], Apply(log, t), written, newDropped)
  {
    TasksOneMore(tasks, log, written, dropped, t);
  }

  lemma TracksShift(tasks: seq<Task>, log: Store, written: LogId, dropped: LogId)
    requires Tracks(tasks, log, written, dropped) && tasks != []
    ensures Tracks(tasks[1..], log, Bound(written, tasks[..1]), dropped)
  {
    BoundShift(written, tasks);
    forall k | 0 <= k < |tasks| - 1
      ensures TaskIdOk(tasks[1..], Bound(written, tasks[..1]), k)
    {
      var next := k + 1;
      assert TaskIdOk(tasks, written, next);
      var front := tasks[..next];
      assert front[0] == tasks[0] && front[1..] == tasks[1..][..k] && front[..1] == tasks[..1];
      BoundShift(written, front);
    }
  }

  // ---- the last id on disk

  /** The disk thread's next task is an append. */
  predicate AppendNext(tasks: seq<Task>) {
    tasks != [] && tasks[0].Append?
  }

  /** `id` is the id of the last entry on disk, unless there is none or one is about to be written. */
  predicate IsLast(s: Store, tasks: seq<Task>, id: LogId) {
    s.entries != [] && !AppendNext(tasks) ==> id == LastIdOf(s.entries)
  }

  /** A cut is always followed by an append. */
  predicate CutsFollowed(tasks: seq<Task>) {
    forall k | 0 <= k < |tasks| && tasks[k].TruncateSuffix? :: k + 1 < |tasks| && tasks[k + 1].Append?
  }

  /** What the disk thread knows of the last id on disk: the id it carries along, the largest id written, and,
      between two batches, the id it starts the next batch with. */
  predicate Settled(s: Store, tasks: seq<Task>, lastId: LogId, written: LogId, diskId: LogId, running: bool) {
    CutsFollowed(tasks) && IsLast(s, tasks, lastId) && IsLast(s, tasks, written) && (!running ==> IsLast(s, tasks, diskId))
  }

  /** More tasks, with every cut followed, change nothing about it. */
  lemma SettledLonger(s: Store, tasks: seq<Task>, lastId: LogId, written: LogId, diskId: LogId, running: bool, more: seq<Task>)
    requires Settled(s, tasks, lastId, written, diskId, running) && CutsFollowed(more)
    ensures Settled(s, tasks + more, lastId, written, diskId, running)
  {
    var all := tasks + more;
    forall k | 0 <= k < |all| && all[k].TruncateSuffix?
      ensures k + 1 < |all| && all[k + 1].Append?
    {
      if k >= |tasks| {
        assert all[k] == more[k - |tasks|];
      }
    }
  }

  /** Running a task that is no append: the id carried along stays the last id on disk. */
  lemma IsLastRun(s: Store, tasks: seq<Task>, id: LogId)
    requires tasks != [] && !tasks[0].Append? && Fits(s, tasks[0]) && s.Valid() && CutNamed(s, tasks, 0) && IsLast(s, tasks, id)
    ensures var t := tasks[0];
            IsLast(Apply(s, t), tasks[1..], if t.TruncateSuffix? then LogId(t.index, t.term) else id)
  {
    assert Replay(s, tasks[..0]) == s;
  }

  /** The largest id written is not carried along with a cut, but then an append follows. */
  lemma IsLastLargest(s: Store, tasks: seq<Task>, written: LogId)
    requires tasks != [] && !tasks[0].Append? && Fits(s, tasks[0]) && IsLast(s, tasks, written) && CutsFollowed(tasks)
    ensures IsLast(Apply(s, tasks[0]), tasks[1..], written) && CutsFollowed(tasks[1..])
  {
  }

  /** Writing collected appends: the last id of the last append is the last id on disk. */
  lemma IsLastWritten(s: Store, tasks: seq<Task>, n: nat, es: seq<LogEntry>)
    requires 0 < n <= |tasks| && tasks[n - 1].Append? && tasks[n - 1].entries != []
    requires |tasks[n - 1].entries| <= |es| && es[|es| - |tasks[n - 1].entries|..] == tasks[n - 1].entries
    ensures IsLast(s.Append(es), tasks[n..], LastIdOf(tasks[n - 1].entries))
    ensures CutsFollowed(tasks) ==> CutsFollowed(tasks[n..])
  {
    var last := tasks[n - 1].entries;
    assert es[|es| - 1] == last[|last| - 1];
    forall k | 0 <= k < |tasks[n..]| && tasks[n..][k].TruncateSuffix? && CutsFollowed(tasks)
      ensures k + 1 < |tasks[n..]| && tasks[n..][k + 1].Append?
    {
      assert tasks[n..][k] == tasks[n + k];
    }
  }

  /** An append is not empty, and its last id counts as written once it has run. */
  lemma LastAppend(s: Store, tasks: seq<Task>, log: Store, written: LogId, n: nat)
    requires Leads(s, tasks, log) && 0 < n <= |tasks| && tasks[n - 1].Append?
    ensures tasks[n - 1].entries != []
    ensures Bound(written, tasks[..n]).AtLeast(LastIdOf(tasks[n - 1].entries))
  {
    var front := tasks[..n];
    LeadsPrefix(s, tasks, log, n);
    LeadsLast(s, front, Replay(s, front));
    hide Leads, Replay, Bound;
    assert front == tasks[..n - 1] + [tasks[n - 1]];
    BoundOneMore(written, tasks[..n - 1], tasks[n - 1]);
  }

  lemma LeadsLast(s: Store, tasks: seq<Task>, log: Store)
    requires Leads(s, tasks, log) && tasks != []
    ensures Fits(Replay(s, tasks[..|tasks| - 1]), tasks[|tasks| - 1])
  {
  }

  /** While ids grow, the last id of an append is the largest one. */
  lemma LastIsLargest(tasks: seq<Task>, log: Store, written: LogId, dropped: LogId, n: nat)
    requires Tracks(tasks, log, written, dropped) && 0 < n <= |tasks| && tasks[n - 1].Append? && tasks[n - 1].entries != []
    ensures Bound(written, tasks[..n]) == LastIdOf(tasks[n - 1].entries)
  {
    assert TaskIdOk(tasks, written, n - 1);
    assert tasks[..n] == tasks[..n - 1] + [tasks[n - 1]];
    BoundOneMore(written, tasks[..n - 1], tasks[n - 1]);
  }
}
