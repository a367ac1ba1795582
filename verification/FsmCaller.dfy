/** The state machine caller: how queued commit notices become calls of the user's state machine. */
module FsmCallers {
  import opened Types
  import opened ClosureQueues

  datatype Event = Applied(index: nat) | Loaded(id: LogId) | Saved(id: LogId) | Notified(kind: nat)

  datatype Task =
    | Committed(index: nat)
    | Load(id: LogId, ok: bool)
    | Save
    | Report
    | Other(kind: nat)

  /** The user's state machine: it fails on the data entries in `bad`, whatever batch they come in, and calls
      `next` at most `steps(i)` times when it is called at index `i`. */
  datatype User = User(bad: set<nat>, steps: nat -> nat)

  /** `applied` is the published applied id, `trace` what the user's state machine has seen. */
  datatype Fsm = Fsm(applied: LogId, error: bool, trace: seq<Event>)

  function EntryAt(log: Log, index: nat): Option<Entry> {
    if 0 < index <= |log| then Some(log[index - 1]) else None
  }

  /** The iterator stops here: no entry to read, or a data entry the user fails on. */
  predicate Fails(log: Log, user: User, index: nat) {
    EntryAt(log, index).None? || (EntryAt(log, index).value.payload.Data? && index in user.bad)
  }

  /** A data entry that the user applies. */
  predicate AppliedData(log: Log, user: User, index: nat) {
    !Fails(log, user, index) && EntryAt(log, index).value.payload.Data?
  }

  /** The first index from `i` to `committed` that fails, or one past `committed`. */
  function Stop(log: Log, user: User, i: nat, committed: nat): (r: nat)
    ensures i <= committed + 1 ==> i <= r <= committed + 1
    ensures i > committed ==> r == i
    decreases committed + 1 - i
  {
    if i > committed || Fails(log, user, i) then i else Stop(log, user, i + 1, committed)
  }

  function Applies(lo: nat, hi: nat): (r: seq<Event>)
    requires lo <= hi
    ensures |r| == hi - lo && forall k | 0 <= k < hi - lo :: r[k] == Applied(lo + k)
  {
    seq(hi - lo, k requires 0 <= k < hi - lo => Applied(lo + k))
  }

  // ---- one task at a time

  function AfterCommitted(log: Log, user: User, s: Fsm, committed: nat): Fsm {
    if s.error || s.applied.index >= committed then s
    else
      var stop := Stop(log, user, s.applied.index + 1, committed);
      Fsm(LogId(committed, TermAt(log, stop - 1)), stop <= committed, s.trace + Applies(s.applied.index + 1, stop))
  }

  /** A snapshot older than what is applied is refused; ids compare by term first. */
  function AfterLoad(s: Fsm, id: LogId, ok: bool): Fsm {
    if s.error || !id.AtLeast(s.applied) then s
    else if !ok then s.(error := true)
    else s.(applied := id, trace := s.trace + [Loaded(id)])
  }

  function AfterTask(log: Log, user: User, s: Fsm, task: Task): Fsm {
    match task
    case Committed(index) => AfterCommitted(log, user, s, index)
    case Load(id, ok) => AfterLoad(s, id, ok)
    case Save => if s.error then s else s.(trace := s.trace + [Saved(s.applied)])
    case Report => s.(error := true)
    case Other(kind) => s.(trace := s.trace + [Notified(kind)])
  }

  /** What the tasks do when each is processed on its own. */
  function AfterTasks(log: Log, user: User, s: Fsm, tasks: seq<Task>): Fsm {
    if tasks == [] then s
    else AfterTask(log, user, AfterTasks(log, user, s, tasks[..|tasks| - 1]), tasks[|tasks| - 1])
  }

  /** Equal as far as the user can tell; the applied id of a caller in error is not used any more. */
  predicate Same(s: Fsm, t: Fsm) {
    s.error == t.error && s.trace == t.trace && (!s.error ==> s.applied == t.applied)
  }

  lemma SameReflexive(s: Fsm)
    ensures Same(s, s)
  {
  }

  // ---- batching

  lemma {:induction false} StopSplits(log: Log, user: User, i: nat, a: nat, b: nat)
    requires i <= a <= b
    ensures var stop := Stop(log, user, i, a);
            Stop(log, user, i, b) == if stop <= a then stop else Stop(log, user, a + 1, b)
    decreases a - i
  {
    if !Fails(log, user, i) && i < a {
      StopSplits(log, user, i + 1, a, b);
    }
  }

  /** Two commit notices in a row have the effect of the larger one. */
  lemma CommittedTwice(log: Log, user: User, s: Fsm, a: nat, b: nat)
    ensures Same(AfterCommitted(log, user, AfterCommitted(log, user, s, a), b), AfterCommitted(log, user, s, Max(a, b)))
  {
    if !s.error && s.applied.index < a < b {
      var i := s.applied.index + 1;
      StopSplits(log, user, i, a, b);
      var stop := Stop(log, user, i, a);
      if stop > a {
        assert Applies(i, a + 1) + Applies(a + 1, Stop(log, user, a + 1, b)) == Applies(i, Stop(log, user, i, b));
      }
    }
  }

  /** The published applied id also agrees, unless the first of two growing notices ran into a failure: then the
      caller publishes the index of the notice that failed, and merging makes that the larger one. */
  lemma CommittedTwiceExactly(log: Log, user: User, s: Fsm, a: nat, b: nat)
    ensures AfterCommitted(log, user, AfterCommitted(log, user, s, a), b) == AfterCommitted(log, user, s, Max(a, b))
            <==> !(!s.error && s.applied.index < a < b && Stop(log, user, s.applied.index + 1, a) <= a)
  {
    CommittedTwice(log, user, s, a, b);
  }

  /** What a commit notice does, told by the first index that fails: everything before it is applied, the caller is in
      error exactly when there is one, and the published id is that of the notice with the term of the last entry
      applied, which is the entry at that index when nothing fails. */
  lemma CommittedExactly(log: Log, user: User, s: Fsm, committed: nat, stop: nat)
    requires !s.error && s.applied.index < committed && s.applied.index < stop <= committed + 1
    requires forall i | s.applied.index < i < stop :: !Fails(log, user, i)
    requires stop <= committed ==> Fails(log, user, stop)
    ensures var t := AfterCommitted(log, user, s, committed);
            && (t.error <==> stop <= committed) && t.applied.index == committed && t.applied.term == TermAt(log, stop - 1)
            && (!t.error ==> committed <= |log| && t.applied == LogId(committed, log[committed - 1].term))
            && t.trace == s.trace + Applies(s.applied.index + 1, stop)
  {
    StopIs(log, user, s.applied.index + 1, committed, stop);
    if stop > committed {
      assert !Fails(log, user, committed) && EntryAt(log, committed).Some?;
    }
  }

  lemma CommittedBefore(log: Log, user: User, s: Fsm, committed: nat)
    ensures s.error || s.applied.index >= committed ==> AfterCommitted(log, user, s, committed) == s
  {
  }

  /** A snapshot of the same committed log never takes the state machine back. */
  lemma LoadGoesForward(log: Log, s: Fsm, id: LogId)
    requires forall i, j | 0 <= i < j < |log| :: log[i].term <= log[j].term
    requires id.index <= |log| && s.applied.index <= |log|
    requires id.term == TermAt(log, id.index) && s.applied.term == TermAt(log, s.applied.index)
    ensures AfterLoad(s, id, true).applied.index >= s.applied.index
  {
  }

  lemma SameTask(log: Log, user: User, s: Fsm, t: Fsm, task: Task)
    requires Same(s, t)
    ensures Same(AfterTask(log, user, s, task), AfterTask(log, user, t, task))
  {
  }

  /** The state once the notices merged into `max` are processed; -1 when there are none. */
  function Flushed(log: Log, user: User, s: Fsm, max: int): Fsm {
    if max < 0 then s else AfterCommitted(log, user, s, max)
  }

  /** Merging one more notice is processing it. */
  lemma MergeNotice(log: Log, user: User, s: Fsm, max: int, t: Fsm, index: nat)
    requires Same(Flushed(log, user, s, max), t)
    ensures Same(Flushed(log, user, s, if index > max then index else max), AfterTask(log, user, t, Committed(index)))
  {
    SameTask(log, user, Flushed(log, user, s, max), t, Committed(index));
    if max >= 0 {
      CommittedTwice(log, user, s, max, index);
    }
  }

  // ---- order

  /** Replaying the trace from `from`: every applied index follows the one before it or the loaded snapshot. */
  ghost predicate Orderly(trace: seq<Event>, from: nat) {
    trace != [] ==>
      var last := trace[|trace| - 1];
      && Orderly(trace[..|trace| - 1], from)
      && (last.Applied? ==> last.index == Position(trace[..|trace| - 1], from) + 1)
  }

  /** The index the state machine stands at after the trace. */
  function Position(trace: seq<Event>, from: nat): nat {
    if trace == [] then from
    else
      var last := trace[|trace| - 1];
      match last
      case Applied(index) => index
      case Loaded(id) => id.index
      case _ => Position(trace[..|trace| - 1], from)
  }

  /** The state machine stands where the applied id says, unless an error stopped it. */
  ghost predicate InOrder(s: Fsm, from: nat) {
    Orderly(s.trace, from) && (!s.error ==> Position(s.trace, from) == s.applied.index)
  }

  lemma {:induction false} AppliesInOrder(trace: seq<Event>, from: nat, lo: nat, hi: nat)
    requires Orderly(trace, from) && Position(trace, from) + 1 == lo <= hi
    ensures Orderly(trace + Applies(lo, hi), from) && Position(trace + Applies(lo, hi), from) + 1 == hi
    decreases hi
  {
    if lo == hi {
      assert trace + Applies(lo, hi) == trace;
    } else {
      AppliesInOrder(trace, from, lo, hi - 1);
      var longer := trace + Applies(lo, hi);
      assert longer[..|longer| - 1] == trace + Applies(lo, hi - 1);
    }
  }

  lemma OneMoreEvent(trace: seq<Event>, from: nat, e: Event)
    requires Orderly(trace, from) && !e.Applied?
    ensures Orderly(trace + [e], from)
    ensures Position(trace + [e], from) == if e.Loaded? then e.id.index else Position(trace, from)
  {
    assert (trace + [e])[..|trace|] == trace;
  }

  lemma TaskInOrder(log: Log, user: User, s: Fsm, task: Task, from: nat)
    requires InOrder(s, from)
    ensures InOrder(AfterTask(log, user, s, task), from)
  {
    match task
    case Committed(index) =>
      if !s.error && s.applied.index < index {
        AppliesInOrder(s.trace, from, s.applied.index + 1, Stop(log, user, s.applied.index + 1, index));
      }
    case Load(id, _) => OneMoreEvent(s.trace, from, Loaded(id));
    case Save => OneMoreEvent(s.trace, from, Saved(s.applied));
    case Report =>
    case Other(kind) => OneMoreEvent(s.trace, from, Notified(kind));
  }

  /** For every queue of tasks, commit notices in any order, the state machine sees each index after its last
      snapshot once, in increasing order. */
  lemma {:induction false} TasksInOrder(log: Log, user: User, id: LogId, tasks: seq<Task>)
    ensures InOrder(AfterTasks(log, user, Fsm(id, false, []), tasks), id.index)
  {
    if tasks != [] {
      TasksInOrder(log, user, id, tasks[..|tasks| - 1]);
      TaskInOrder(log, user, AfterTasks(log, user, Fsm(id, false, []), tasks[..|tasks| - 1]), tasks[|tasks| - 1], id.index);
    }
  }

  // ---- the caller and its iterator

  lemma {:induction false} StopIs(log: Log, user: User, i: nat, committed: nat, stop: nat)
    requires i <= stop <= committed + 1 && forall k | i <= k < stop :: !Fails(log, user, k)
    requires stop <= committed ==> Fails(log, user, stop)
    ensures Stop(log, user, i, committed) == stop
    decreases stop - i
  {
    if i < stop {
      StopIs(log, user, i + 1, committed, stop);
    }
  }

  /** The closure that waits for an index. */
  function ClosureAt(w: Waiting, index: nat): Option<Closure> {
    if w.first <= index < w.End() then w.queue[index - w.first] else None
  }

  class IteratorImpl {
    const log: Log
    const closures: seq<Option<Closure>>
    const firstClosureIndex: nat
    const committedIndex: nat
    var curIndex: nat
    var curEntry: Option<Entry>
    var error: bool

    ghost predicate Valid()
      reads this
    {
      && firstClosureIndex + |closures| == committedIndex + 1
      && 0 < curIndex <= committedIndex + 1
      && (IsGood() ==> curEntry.Some? && curEntry == EntryAt(log, curIndex))
      && (error ==> curIndex <= committedIndex)
    }

    predicate IsGood()
      reads this
    {
      curIndex <= committedIndex && !error
    }

    constructor (log: Log, closures: seq<Option<Closure>>, firstClosureIndex: nat, lastApplied: nat, committed: nat)
      requires firstClosureIndex + |closures| == committed + 1 && lastApplied < committed
      ensures Valid() && curIndex == lastApplied + 1 && error == EntryAt(log, lastApplied + 1).None?
      ensures this.log == log && committedIndex == committed
      ensures this.closures == closures && this.firstClosureIndex == firstClosureIndex
    {
      this.log, this.closures, this.firstClosureIndex := log, closures, firstClosureIndex;
      committedIndex, curIndex, curEntry, error := committed, lastApplied, None, false;
      new;
      Next();
    }

    /** Moves on by one entry; an entry that cannot be read is an error. */
    method Next()
      requires curIndex <= committedIndex && !error && firstClosureIndex + |closures| == committedIndex + 1
      modifies this
      ensures Valid() && curIndex == old(curIndex) + 1
      ensures error == (curIndex <= committedIndex && EntryAt(log, curIndex).None?)
    {
      curEntry := None;
      if curIndex <= committedIndex {
        curIndex := curIndex + 1;
        if curIndex <= committedIndex {
          curEntry := EntryAt(log, curIndex);
          if curEntry.None? {
            error := true;
          }
        }
      }
    }

    /** What the user's iterator calls valid: only data entries are shown to the user. */
    predicate IsData()
      reads this
    {
      IsGood() && curEntry.Some? && curEntry.value.payload.Data?
    }

    function DoneAt(index: nat): Option<Closure> {
      if firstClosureIndex <= index < firstClosureIndex + |closures| then closures[index - firstClosureIndex] else None
    }

    function Done(): (r: Option<Closure>)
      requires Valid() && curIndex <= committedIndex
      reads this
      ensures r == DoneAt(curIndex)
    {
      if curIndex < firstClosureIndex then None else closures[curIndex - firstClosureIndex]
    }

    /** The last `ntail` entries are not applied; the current one counts when it is a data entry. */
    method SetErrorAndRollback(ntail: nat)
      requires Valid() && curIndex <= committedIndex && ntail <= curIndex
      modifies this
      ensures ntail == 0 ==> curIndex == old(curIndex) && error == old(error) && curEntry == old(curEntry)
      ensures ntail > 0 ==>
                && error && curEntry.None?
                && curIndex == old(curIndex) + (if old(curEntry.Some? && curEntry.value.payload.Data?) then 1 else 0) - ntail
    {
      if ntail == 0 {
        return;
      }
      if curEntry.None? || !curEntry.value.payload.Data? {
        curIndex := curIndex - ntail;
      } else {
        curIndex := curIndex - (ntail - 1);
      }
      curEntry := None;
      error := true;
    }
  }

  /** The closures handed out with the indices from `lo` on are the ones that wait for them. */
  ghost predicate OwnClosures(runs: seq<Option<Closure>>, lo: nat, w: Waiting) {
    forall k | 0 <= k < |runs| :: runs[k] == ClosureAt(w, lo + k)
  }

  class FsmCaller {
    const log: Log
    const user: User
    const closureQueue: ClosureQueue
    var appliedIndex: nat
    var appliedTerm: nat
    var error: bool
    var trace: seq<Event>

    ghost function View(): Fsm
      reads this
    {
      Fsm(LogId(appliedIndex, appliedTerm), error, trace)
    }

    constructor (log: Log, user: User, queue: ClosureQueue, id: LogId)
      ensures View() == Fsm(id, false, []) && this.log == log && this.user == user && closureQueue == queue
    {
      this.log, this.user, closureQueue := log, user, queue;
      appliedIndex, appliedTerm, error, trace := id.index, id.term, false, [];
    }

    /** The user's `on_apply`: it looks at each entry it is shown and stops after `steps` moves, at an entry that
        is no data entry, or where it fails. It never moves past an entry that is not a data entry. */
    method OnApply(iter: IteratorImpl) returns (runs: seq<Option<Closure>>)
      requires iter.Valid() && iter.IsData() && iter.log == log
      modifies iter
      ensures iter.Valid() && old(iter.curIndex) <= iter.curIndex && |runs| == iter.curIndex - old(iter.curIndex)
      ensures forall k | 0 <= k < |runs| :: runs[k] == iter.DoneAt(old(iter.curIndex) + k)
      ensures forall i | old(iter.curIndex) <= i < iter.curIndex :: AppliedData(log, user, i)
      ensures iter.error ==> Fails(log, user, iter.curIndex)
      ensures iter.IsData() ==> !Fails(log, user, iter.curIndex)
    {
      runs := [];
      var steps := user.steps(iter.curIndex);
      while iter.IsData()
        invariant iter.Valid() && old(iter.curIndex) <= iter.curIndex && |runs| == iter.curIndex - old(iter.curIndex)
        invariant forall k | 0 <= k < |runs| :: runs[k] == iter.DoneAt(old(iter.curIndex) + k)
        invariant forall i | old(iter.curIndex) <= i < iter.curIndex :: AppliedData(log, user, i)
        invariant iter.error ==> Fails(log, user, iter.curIndex)
        decreases iter.committedIndex + 1 - iter.curIndex, !iter.error
      {
        if iter.curIndex in user.bad {
          iter.SetErrorAndRollback(1);
          break;
        }
        if steps == 0 {
          break;
        }
        steps := steps - 1;
        runs := runs + [iter.Done()];
        iter.Next();
      }
    }

    /** The loop of `do_committed`: entries that are no data entries are handled here, data entries by the user,
        and an entry the user looked at but did not move past is passed for the user. */
    method ApplyAll(iter: IteratorImpl) returns (runs: seq<Option<Closure>>)
      requires iter.Valid() && iter.log == log && (iter.error ==> Fails(log, user, iter.curIndex))
      modifies iter
      ensures iter.Valid() && !iter.IsGood() && |runs| == iter.curIndex - old(iter.curIndex)
      ensures forall k | 0 <= k < |runs| :: runs[k] == iter.DoneAt(old(iter.curIndex) + k)
      ensures forall i | old(iter.curIndex) <= i < iter.curIndex :: !Fails(log, user, i)
      ensures iter.error ==> Fails(log, user, iter.curIndex)
    {
      runs := [];
      while iter.IsGood()
        invariant iter.Valid() && old(iter.curIndex) <= iter.curIndex && |runs| == iter.curIndex - old(iter.curIndex)
        invariant forall k | 0 <= k < |runs| :: runs[k] == iter.DoneAt(old(iter.curIndex) + k)
        invariant forall i | old(iter.curIndex) <= i < iter.curIndex :: !Fails(log, user, i)
        invariant iter.error ==> Fails(log, user, iter.curIndex)
        decreases iter.committedIndex + 1 - iter.curIndex, !iter.error
      {
        if !iter.curEntry.value.payload.Data? {
          runs := runs + [iter.Done()];
          iter.Next();
        } else {
          ghost var start := iter.curIndex;
          var more := OnApply(iter);
          assert forall i | start <= i < iter.curIndex :: AppliedData(log, user, i) ==> !Fails(log, user, i);
          runs := runs + more;
          if iter.IsData() {
            runs := runs + [iter.Done()];
            iter.Next();
          }
        }
      }
    }

    /** Applies everything up to `committed`; the index check of the closure queue is a precondition. */
    method DoCommitted(committed: nat) returns (runs: seq<Option<Closure>>)
      requires this as object != closureQueue && PopUntil(closureQueue.View(), committed).Some?
      modifies this, closureQueue
      ensures View() == AfterCommitted(log, user, old(View()), committed)
      ensures trace == old(trace) + Applies(old(appliedIndex) + 1, old(appliedIndex) + 1 + |runs|)
      ensures OwnClosures(runs, old(appliedIndex) + 1, old(closureQueue.View()))
      ensures closureQueue.View() ==
                if old(error) || old(appliedIndex) >= committed then old(closureQueue.View())
                else PopUntil(old(closureQueue.View()), committed).value.waiting
      ensures old(error) || old(appliedIndex) >= committed ==> unchanged(this) && runs == []
      ensures !old(error) && old(appliedIndex) < committed ==>
                && appliedIndex == committed && appliedTerm == TermAt(log, old(appliedIndex) + |runs|)
                && (forall i | old(appliedIndex) < i <= old(appliedIndex) + |runs| :: !Fails(log, user, i))
                && (error <==> old(appliedIndex) + |runs| < committed)
                && (error ==> Fails(log, user, old(appliedIndex) + |runs| + 1))
    {
      hide AfterCommitted, Fails, TermAt;
      runs := [];
      CommittedBefore(log, user, View(), committed);
      if error || appliedIndex >= committed {
        return;
      }
      var code, closures, first := closureQueue.PopClosureUntil(committed);
      var iter := new IteratorImpl(log, closures, first, appliedIndex, committed);
      runs := ApplyAll(iter);
      CommittedExactly(log, user, View(), committed, iter.curIndex);
      trace := trace + Applies(appliedIndex + 1, iter.curIndex);
      if iter.error {
        error := true;
      }
      appliedIndex, appliedTerm := committed, TermAt(log, iter.curIndex - 1);
    }

    /** Drains the task queue; consecutive commit notices are merged, at most `batch` of them at a time. */
    method Run(tasks: seq<Task>, batch: nat)
      requires this as object != closureQueue
      requires forall t | t in tasks && t.Committed? ::
                 closureQueue.queue == [] || t.index < closureQueue.firstIndex + |closureQueue.queue|
      modifies this, closureQueue
      ensures Same(View(), AfterTasks(log, user, old(View()), tasks))
    {
      hide AfterCommitted, AfterTask, Same;
      var max: int, counter := -1, 0;
      SameReflexive(View());
      ghost var s := View();
      var i := 0;
      while i < |tasks|
        invariant i <= |tasks| && -1 <= max
        invariant forall t | t in tasks && t.Committed? ::
                    closureQueue.queue == [] || t.index < closureQueue.firstIndex + |closureQueue.queue|
        invariant max >= 0 ==> Committed(max) in tasks
        invariant Same(Flushed(log, user, View(), max), AfterTasks(log, user, s, tasks[..i]))
      {
        assert tasks[..i + 1][..i] == tasks[..i];
        var task := tasks[i];
        ghost var t := AfterTasks(log, user, s, tasks[..i]);
        if task.Committed? && counter < batch {
          MergeNotice(log, user, View(), max, t, task.index);
          if task.index > max {
            max := task.index;
            counter := counter + 1;
          }
        } else {
          if max >= 0 {
            var _ := DoCommitted(max);
            max, counter := -1, 0;
          }
          if task.Committed? {
            MergeNotice(log, user, View(), max, t, task.index);
            max, counter := task.index, counter + 1;
          } else {
            SameTask(log, user, View(), t, task);
            OtherTask(task);
          }
        }
        i := i + 1;
      }
      assert tasks[..i] == tasks;
      if max >= 0 {
        var _ := DoCommitted(max);
      }
    }

    /** Tasks that are not commit notices. */
    method OtherTask(task: Task)
      requires !task.Committed?
      modifies this
      ensures View() == AfterTask(log, user, old(View()), task)
      ensures task.Load? && !old(error) && task.id.AtLeast(LogId(old(appliedIndex), old(appliedTerm))) ==>
                if task.ok then LogId(appliedIndex, appliedTerm) == task.id && trace == old(trace) + [Loaded(task.id)] && !error
                else error && trace == old(trace)
      ensures task.Load? && !(!old(error) && task.id.AtLeast(LogId(old(appliedIndex), old(appliedTerm)))) ==> unchanged(this)
      ensures !task.Load? ==> unchanged(`appliedIndex, `appliedTerm) && (error <==> old(error) || task.Report?)
      ensures !task.Load? ==> trace == old(trace) + match task
                case Save => if old(error) then [] else [Saved(LogId(appliedIndex, appliedTerm))]
                case Other(kind) => [Notified(kind)]
                case _ => []
    {
      match task
      case Load(id, ok) =>
        if !error && id.AtLeast(LogId(appliedIndex, appliedTerm)) {
          if ok {
            appliedIndex, appliedTerm, trace := id.index, id.term, trace + [Loaded(id)];
          } else {
            error := true;
          }
        }
      case Save =>
        if !error {
          trace := trace + [Saved(LogId(appliedIndex, appliedTerm))];
        }
      case Report => error := true;
      case Other(kind) => trace := trace + [Notified(kind)];
    }
  }
}
