/** The log of a node while part of it is still on its way to the disk: the storage, the queue of disk
    operations, and the log they add up to. */
module DiskQueues {
  import opened Types
  import opened LogStorages

  /** A disk operation; `Done` only runs its closure, `LastLogId` also answers with the last id on disk. */
  datatype Task =
    | Append(entries: seq<LogEntry>)
    | TruncatePrefix(index: nat)
    | TruncateSuffix(index: nat, term: nat)
    | Reset(next: nat)
    | Done
    | LastLogId

  function Apply(s: Store, t: Task): Store {
    match t
    case Append(es) => s.Append(es)
    case TruncatePrefix(index) => s.TruncatePrefix(index)
    case TruncateSuffix(index, _) => s.TruncateSuffix(index)
    case Reset(next) => s.Reset(next)
    case Done => s
    case LastLogId => s
  }

  /** The storage after all the tasks. */
  function Replay(s: Store, tasks: seq<Task>): Store {
    if tasks == [] then s else Apply(Replay(s, tasks[..|tasks| - 1]), tasks[|tasks| - 1])
  }

  /** The operation fits the storage it will find. */
  ghost predicate Fits(s: Store, t: Task) {
    match t
    case Append(es) => es != [] && Follows(s, es)
    case TruncatePrefix(index) => s.first <= index
    case TruncateSuffix(index, _) => s.first - 1 <= index <= s.Last()
    case Reset(next) => next > 0
    case Done => true
    case LastLogId => true
  }

  lemma FitsValid(s: Store, t: Task)
    requires s.Valid() && Fits(s, t)
    ensures Apply(s, t).Valid()
  {
    if t.TruncatePrefix? && s.first < t.index <= s.Last() {
      var n := t.index - s.first;
      assert forall k | 0 <= k < |s.entries| - n :: s.entries[n..][k] == s.entries[n + k];
    }
  }

  /** Every task fits, in order, and together they turn `s` into `log`. */
  ghost predicate Leads(s: Store, tasks: seq<Task>, log: Store) {
    if tasks == [] then s == log && s.Valid()
    else
      var n := |tasks| - 1;
      var before := Replay(s, tasks[..n]);
      Leads(s, tasks[..n], before) && Fits(before, tasks[n]) && log == Apply(before, tasks[n])
  }

  lemma {:induction false} LeadsFacts(s: Store, tasks: seq<Task>, log: Store)
    requires Leads(s, tasks, log)
    ensures log == Replay(s, tasks) && s.Valid() && log.Valid()
  {
    if tasks != [] {
      var n := |tasks| - 1;
      LeadsFacts(s, tasks[..n], Replay(s, tasks[..n]));
      FitsValid(Replay(s, tasks[..n]), tasks[n]);
    }
  }

  lemma {:induction false} LeadsPrefix(s: Store, tasks: seq<Task>, log: Store, n: nat)
    requires Leads(s, tasks, log) && n <= |tasks|
    ensures Leads(s, tasks[..n], Replay(s, tasks[..n]))
  {
    if n == |tasks| {
      assert tasks[..n] == tasks;
      LeadsFacts(s, tasks, log);
    } else {
      var m := |tasks| - 1;
      LeadsPrefix(s, tasks[..m], Replay(s, tasks[..m]), n);
      assert tasks[..m][..n] == tasks[..n];
    }
  }

  lemma LeadsOneMore(s: Store, tasks: seq<Task>, log: Store, t: Task)
    requires Leads(s, tasks, log) && Fits(log, t)
    ensures Leads(s, tasks + [t], Apply(log, t))
  {
    LeadsFacts(s, tasks, log);
    assert (tasks + [t])[..|tasks|] == tasks;
  }

  /** The disk runs the first task. */
  lemma {:induction false} LeadsShift(s: Store, tasks: seq<Task>, log: Store)
    requires Leads(s, tasks, log) && tasks != []
    ensures Fits(s, tasks[0]) && Leads(Apply(s, tasks[0]), tasks[1..], log)
    ensures Replay(Apply(s, tasks[0]), tasks[1..]) == Replay(s, tasks)
  {
    var n := |tasks| - 1;
    LeadsFacts(s, tasks, log);
    if n == 0 {
      assert tasks[..n] == [];
      FitsValid(s, tasks[0]);
    } else {
      var init := tasks[..n];
      LeadsShift(s, init, Replay(s, init));
      assert init[1..] == tasks[1..][..n - 1] && tasks[1..][n - 1] == tasks[n];
    }
  }

  // ---- ids

  /** Ids compare by term first. */
  predicate Less(a: LogId, b: LogId) {
    !a.AtLeast(b)
  }

  function LastIdOf(es: seq<LogEntry>): LogId
    requires es != []
  {
    es[|es| - 1].id
  }

  function LargerId(a: LogId, b: LogId): LogId {
    if a.AtLeast(b) then a else b
  }

  /** The largest id that counts as written once `t` has run: an append stands for its last id, a cut for the id it
      keeps last. */
  function Mark(seen: LogId, t: Task): LogId {
    match t
    case Append(es) => if es == [] then seen else LargerId(seen, LastIdOf(es))
    case TruncateSuffix(index, term) => LargerId(seen, LogId(index, term))
    case _ => seen
  }

  /** The largest id that counts as written once the tasks have run, `seen` included. */
  function Bound(seen: LogId, tasks: seq<Task>): LogId {
    if tasks == [] then seen else Mark(Bound(seen, tasks[..|tasks| - 1]), tasks[|tasks| - 1])
  }

  lemma BoundOneMore(seen: LogId, tasks: seq<Task>, t: Task)
    ensures Bound(seen, tasks + [t]) == Mark(Bound(seen, tasks), t)
  {
    assert (tasks + [t])[..|tasks|] == tasks;
  }

  lemma {:induction false} BoundShift(seen: LogId, tasks: seq<Task>)
    requires tasks != []
    ensures Bound(Bound(seen, tasks[..1]), tasks[1..]) == Bound(seen, tasks)
  {
    var n := |tasks| - 1;
    if n == 0 {
      assert tasks[..1] == tasks;
    } else {
      var init := tasks[..n];
      BoundShift(seen, init);
      assert init[..1] == tasks[..1] && init[1..] == tasks[1..][..n - 1] && tasks[1..][n - 1] == tasks[n];
    }
  }

  lemma {:induction false} BoundGrows(seen: LogId, tasks: seq<Task>, k: nat)
    requires k <= |tasks|
    ensures Bound(seen, tasks).AtLeast(Bound(seen, tasks[..k]))
  {
    if k == |tasks| {
      assert tasks[..k] == tasks;
    } else {
      var n := |tasks| - 1;
      BoundGrows(seen, tasks[..n], k);
      assert tasks[..n][..k] == tasks[..k];
    }
  }

  // ---- what can be read from the storage

  /** The storage holds the entry that the log has at `index`. */
  ghost predicate Stored(s: Store, log: Store, index: nat) {
    log.Has(index) ==> s.Has(index) && s.Get(index) == log.Get(index)
  }

  /** After `k` of the tasks: an index below `mem` can be read from the storage, and whatever is not there yet has
      an id above everything written so far. */
  ghost predicate StageOk(s: Store, tasks: seq<Task>, log: Store, mem: nat, seen: LogId, k: nat)
    requires k <= |tasks|
  {
    var stage := Replay(s, tasks[..k]);
    forall i {:trigger Stored(stage, log, i)} | log.Has(i) && !Stored(stage, log, i) ::
      mem <= i && Less(Bound(seen, tasks[..k]), log.Get(i).id)
  }

  ghost predicate Readable(s: Store, tasks: seq<Task>, log: Store, mem: nat, seen: LogId) {
    forall k {:trigger StageOk(s, tasks, log, mem, seen, k)} | 0 <= k <= |tasks| :: StageOk(s, tasks, log, mem, seen, k)
  }

  /** One more task that keeps what it keeps: everything left was there before, or is new and above all ids. */
  lemma ReadableOneMore(s: Store, tasks: seq<Task>, log: Store, mem: nat, seen: LogId, t: Task)
    requires Leads(s, tasks, log) && Fits(log, t) && Readable(s, tasks, log, mem, seen)
    requires t.Append? ==> mem <= log.Last() + 1 && forall k | 0 <= k < |t.entries| :: Less(Bound(seen, tasks), t.entries[k].id)
    ensures Readable(s, tasks + [t], Apply(log, t), mem, seen)
  {
    var after, more := Apply(log, t), tasks + [t];
    LeadsFacts(s, tasks, log);
    assert more[..|tasks|] == tasks;
    forall k | 0 <= k <= |more|
      ensures StageOk(s, more, after, mem, seen, k)
    {
      if k <= |tasks| {
        assert more[..k] == tasks[..k];
        assert StageOk(s, tasks, log, mem, seen, k);
        OneMoreStage(s, tasks, log, mem, seen, t, k);
      } else {
        assert more[..k] == more;
        assert Replay(s, more) == after;
      }
    }
  }

  lemma OneMoreStage(s: Store, tasks: seq<Task>, log: Store, mem: nat, seen: LogId, t: Task, k: nat)
    requires k <= |tasks| && StageOk(s, tasks, log, mem, seen, k) && log.Valid() && Fits(log, t)
    requires t.Append? ==> mem <= log.Last() + 1 && forall k | 0 <= k < |t.entries| :: Less(Bound(seen, tasks), t.entries[k].id)
    ensures var stage, after := Replay(s, tasks[..k]), Apply(log, t);
            forall i {:trigger Stored(stage, after, i)} | after.Has(i) && !Stored(stage, after, i) ::
              mem <= i && Less(Bound(seen, tasks[..k]), after.Get(i).id)
  {
    var stage, after := Replay(s, tasks[..k]), Apply(log, t);
    BoundGrows(seen, tasks, k);
    forall i | after.Has(i) && !Stored(stage, after, i)
      ensures mem <= i && Less(Bound(seen, tasks[..k]), after.Get(i).id)
    {
      if log.Has(i) {
        assert after.Get(i) == log.Get(i);
        assert !Stored(stage, log, i);
      }
    }
  }

  /** An append keeps what it keeps exactly when every id it adds is above everything that will count as written by
      then: right before it runs, none of its entries is in the storage. */
  lemma ReadableAppend(s: Store, tasks: seq<Task>, log: Store, mem: nat, seen: LogId, t: Task)
    requires Leads(s, tasks, log) && t.Append? && Fits(log, t) && Readable(s, tasks, log, mem, seen) && mem <= log.Last() + 1
    ensures Readable(s, tasks + [t], Apply(log, t), mem, seen)
            <==> forall k | 0 <= k < |t.entries| :: Less(Bound(seen, tasks), t.entries[k].id)
  {
    var after, more, n := Apply(log, t), tasks + [t], |tasks|;
    if Readable(s, more, after, mem, seen) {
      LeadsFacts(s, tasks, log);
      assert more[..n] == tasks && StageOk(s, more, after, mem, seen, n);
      forall k | 0 <= k < |t.entries|
        ensures Less(Bound(seen, tasks), t.entries[k].id)
      {
        var i := log.Last() + 1 + k;
        assert after.Get(i) == t.entries[k] && !Stored(log, after, i);
      }
    } else if forall k | 0 <= k < |t.entries| :: Less(Bound(seen, tasks), t.entries[k].id) {
      ReadableOneMore(s, tasks, log, mem, seen, t);
    }
  }

  /** The disk has run the first task. */
  lemma ReadableShift(s: Store, tasks: seq<Task>, log: Store, mem: nat, seen: LogId)
    requires Leads(s, tasks, log) && Readable(s, tasks, log, mem, seen) && tasks != []
    ensures Readable(Apply(s, tasks[0]), tasks[1..], log, mem, Bound(seen, tasks[..1]))
  {
    forall k | 0 <= k <= |tasks| - 1
      ensures StageOk(Apply(s, tasks[0]), tasks[1..], log, mem, Bound(seen, tasks[..1]), k)
    {
      var next := k + 1;
      assert StageOk(s, tasks, log, mem, seen, next);
      var front := tasks[..next];
      assert front[0] == tasks[0] && front[1..] == tasks[1..][..k] && front[..1] == tasks[..1];
      ReplayShift(s, front);
      BoundShift(seen, front);
    }
  }

  lemma {:induction false} ReplayShift(s: Store, tasks: seq<Task>)
    requires tasks != []
    ensures Replay(Apply(s, tasks[0]), tasks[1..]) == Replay(s, tasks)
  {
    var n := |tasks| - 1;
    if n == 0 {
      assert tasks[..n] == [];
    } else {
      ReplayShift(s, tasks[..n]);
      assert tasks[..n][1..] == tasks[1..][..n - 1] && tasks[1..][n - 1] == tasks[n];
    }
  }

  /** Entries whose ids are not above what has been written may leave the memory. */
  lemma ReadableEvict(s: Store, tasks: seq<Task>, log: Store, mem: nat, later: nat, seen: LogId)
    requires Readable(s, tasks, log, mem, seen)
    requires forall i | mem <= i < later && log.Has(i) :: !Less(seen, log.Get(i).id)
    ensures Readable(s, tasks, log, later, seen)
  {
    forall k | 0 <= k <= |tasks|
      ensures StageOk(s, tasks, log, later, seen, k)
    {
      assert StageOk(s, tasks, log, mem, seen, k);
      var front := tasks[..k];
      BoundGrows(seen, front, 0);
      assert front[..0] == [];
    }
  }

  /** Only indices of the log matter. */
  lemma ReadableRange(s: Store, tasks: seq<Task>, log: Store, mem: nat, later: nat, seen: LogId)
    requires Readable(s, tasks, log, mem, seen) && (later <= mem || later <= log.first)
    ensures Readable(s, tasks, log, later, seen)
  {
    forall k | 0 <= k <= |tasks|
      ensures StageOk(s, tasks, log, later, seen, k)
    {
      assert StageOk(s, tasks, log, mem, seen, k);
    }
  }

  /** Nothing is in the log: nothing can be missing. */
  lemma ReadableEmpty(s: Store, tasks: seq<Task>, log: Store, mem: nat, seen: LogId)
    requires log.entries == []
    ensures Readable(s, tasks, log, mem, seen)
  {
    forall k | 0 <= k <= |tasks|
      ensures StageOk(s, tasks, log, mem, seen, k)
    {
    }
  }
}
