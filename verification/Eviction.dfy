/** When the log manager may forget what it holds in memory: everything the disk thread, the state machine and
    snapshots can do next, and exactly when a read never goes wrong. */
module Evictions {
  import opened Types
  import opened LogStorages
  import opened DiskQueues
  import opened DiskIds
  import opened LogManagerSpec

  /** What reads depend on: the storage, the disk tasks, the memory, the log they stand for, the largest id that counts
      as written, and the ids published by the disk thread and the state machine. */
  datatype Cached = Cached(storage: Store, tasks: seq<Task>, mem: seq<LogEntry>, log: Store, written: LogId, diskId: LogId,
                           appliedId: LogId)

  ghost predicate Held(c: Cached) {
    HeldOk(c.storage, c.tasks, c.log, c.mem) && c.written.AtLeast(c.diskId)
  }

  /** A read: from memory if the entry is there, otherwise from the storage as it is now. */
  function Lookup(c: Cached, index: int): Option<LogEntry> {
    if !c.log.Has(index) then None
    else if MemStart(c.log, c.mem) <= index then Some(c.log.Get(index))
    else c.storage.Read(index)
  }

  /** Every read finds the entry of the log. */
  ghost predicate Right(c: Cached) {
    forall index: int :: Lookup(c, index) == c.log.Read(index)
  }

  // ---- what can happen next

  /** The disk thread runs `n` tasks or publishes an id that counts as written, the state machine publishes what it has
      applied, or the beginning of the log is dropped. */
  datatype Event = Disk(n: nat) | DiskId(id: LogId) | AppliedId(id: LogId) | Drop(index: nat)

  predicate Possible(c: Cached, e: Event) {
    match e
    case Disk(n) => n <= |c.tasks|
    case DiskId(id) => c.written.AtLeast(id)
    case AppliedId(id) => id.AtLeast(c.appliedId) ==> id.index >= c.appliedId.index
    case Drop(index) => c.log.first <= index
  }

  /** Memory is cleared up to the smaller of the disk id and the applied id. */
  function ClearId(diskId: LogId, appliedId: LogId): LogId {
    if diskId.AtLeast(appliedId) then appliedId else diskId
  }

  /** What stays in memory: clearing goes from the front to the first larger id. */
  function Uncleared(mem: seq<LogEntry>, id: LogId): seq<LogEntry> {
    if mem == [] || Less(id, mem[0].id) then mem else Uncleared(mem[1..], id)
  }

  lemma {:induction false} UnclearedFrom(mem: seq<LogEntry>, id: LogId, n: nat)
    requires n <= |mem| && forall k | 0 <= k < n :: id.AtLeast(mem[k].id)
    ensures Uncleared(mem, id) == Uncleared(mem[n..], id)
  {
    if n > 0 {
      UnclearedFrom(mem[1..], id, n - 1);
      assert mem[1..][n - 1..] == mem[n..];
    }
  }

  /** Clearing drops a beginning of the memory, of ids up to `id`, and as much as it can. */
  lemma {:induction false} UnclearedIs(mem: seq<LogEntry>, id: LogId) returns (n: nat)
    ensures n <= |mem| && Uncleared(mem, id) == mem[n..]
    ensures (forall k | 0 <= k < n :: id.AtLeast(mem[k].id)) && (n < |mem| ==> Less(id, mem[n].id))
  {
    if mem == [] || Less(id, mem[0].id) {
      n := 0;
    } else {
      var m := UnclearedIs(mem[1..], id);
      n := m + 1;
      forall k | 0 <= k < n
        ensures id.AtLeast(mem[k].id)
      {
        if k > 0 {
          assert mem[k] == mem[1..][k - 1];
        }
      }
    }
  }

  function Cleared(c: Cached): Cached {
    c.(mem := Uncleared(c.mem, ClearId(c.diskId, c.appliedId)))
  }

  /** The log, its memory and the disk queue when everything before `index` is dropped. */
  function Dropped(c: Cached, index: nat): Cached {
    c.(tasks := c.tasks + [TruncatePrefix(index)], log := c.log.TruncatePrefix(index),
       mem := c.mem[Clamp(index - MemStart(c.log, c.mem), |c.mem|)..])
  }

  function Next(c: Cached, e: Event): Cached
    requires Possible(c, e)
  {
    match e
    case Disk(n) =>
      c.(storage := Replay(c.storage, c.tasks[..n]), tasks := c.tasks[n..], written := Bound(c.written, c.tasks[..n]))
    case DiskId(id) => if id.AtLeast(c.diskId) then Cleared(c.(diskId := id)) else c
    case AppliedId(id) => if id.AtLeast(c.appliedId) then Cleared(c.(appliedId := id)) else c
    case Drop(index) => Dropped(c, index)
  }

  lemma NothingRun(c: Cached)
    ensures Next(c, Disk(0)) == c
  {
    assert c.tasks[..0] == [] && c.tasks[0..] == c.tasks;
  }

  predicate Run(c: Cached, es: seq<Event>)
    decreases |es|
  {
    es == [] || (Possible(c, es[0]) && Run(Next(c, es[0]), es[1..]))
  }

  function After(c: Cached, es: seq<Event>): Cached
    requires Run(c, es)
    decreases |es|
  {
    if es == [] then c else After(Next(c, es[0]), es[1..])
  }

  lemma RunFirst(c: Cached, e: Event, es: seq<Event>)
    requires Possible(c, e) && Run(Next(c, e), es)
    ensures Run(c, [e] + es) && After(c, [e] + es) == After(Next(c, e), es)
  {
    assert ([e] + es)[1..] == es;
  }

  // ---- nothing readable is lost

  ghost predicate Kept(c: Cached) {
    ReadOk(c.storage, c.tasks, c.log, c.mem, c.written)
  }

  lemma NextHeld(c: Cached, e: Event)
    requires Held(c) && Possible(c, e)
    ensures Held(Next(c, e)) && (Kept(c) ==> Kept(Next(c, e)))
  {
    hide HeldOk, ReadOk;
    match e
    case Disk(n) =>
      RunMany(c.storage, c.tasks, c.log, c.mem, c.written, n);
      BoundGrows(c.written, c.tasks[..n], 0);
      assert c.tasks[..n][..0] == [];
    case DiskId(id) => ClearHeld(c.(diskId := id));
    case AppliedId(id) => ClearHeld(c.(appliedId := id));
    case Drop(index) => DropLog(c.storage, c.tasks, c.log, c.mem, c.written, TruncatePrefix(index));
  }

  lemma ClearHeld(c: Cached)
    requires Held(c)
    ensures Held(Cleared(c)) && (Kept(c) ==> Kept(Cleared(c)))
  {
    hide HeldOk, ReadOk;
    var n := UnclearedIs(c.mem, ClearId(c.diskId, c.appliedId));
    EvictLog(c.storage, c.tasks, c.log, c.mem, c.written, n);
  }

  lemma KeptIsRight(c: Cached)
    requires Held(c) && Kept(c)
    ensures Right(c)
  {
    forall index: int
      ensures Lookup(c, index) == c.log.Read(index)
    {
      assert StageOk(c.storage, c.tasks, c.log, MemStart(c.log, c.mem), c.written, 0);
      assert Replay(c.storage, c.tasks[..0]) == c.storage;
      if c.log.Has(index) {
        assert Stored(c.storage, c.log, index) || MemStart(c.log, c.mem) <= index;
      }
    }
  }

  lemma {:induction false} KeptForever(c: Cached, es: seq<Event>)
    requires Held(c) && Kept(c) && Run(c, es)
    ensures Right(After(c, es))
    decreases |es|
  {
    if es == [] {
      KeptIsRight(c);
    } else {
      NextHeld(c, es[0]);
      KeptForever(Next(c, es[0]), es[1..]);
    }
  }

  // ---- whatever is not kept can be lost

  /** An id above two others, by index and by term. */
  function Top(a: LogId, b: LogId): (r: LogId)
    ensures r.AtLeast(a) && r.AtLeast(b) && r.index >= a.index
  {
    LogId(Types.Max(a.index, b.index), Types.Max(a.term, b.term))
  }

  /** An entry that the memory has given up, and that the storage lacks after `k` tasks. */
  lemma LostFromStorage(c: Cached, k: nat, i: nat) returns (es: seq<Event>)
    requires Held(c) && k <= |c.tasks| && c.log.Has(i) && !Stored(Replay(c.storage, c.tasks[..k]), c.log, i)
    requires i < MemStart(c.log, c.mem)
    ensures es == [Disk(k)] && Run(c, es) && !Right(After(c, es))
  {
    var e := Disk(k);
    es := [e];
    var d := Next(c, e);
    assert es[1..] == [] && After(d, []) == d;
    assert Lookup(d, i) != d.log.Read(i);
  }

  /** An entry in memory that the storage lacks after `k` tasks, while its id counts as written by then: when the log
      starts with it, the memory gives it up. */
  lemma LostFromMemory(c: Cached, k: nat, i: nat) returns (es: seq<Event>)
    requires Held(c) && k <= |c.tasks| && c.log.Has(i) && !Stored(Replay(c.storage, c.tasks[..k]), c.log, i)
    requires MemStart(c.log, c.mem) <= i && Bound(c.written, c.tasks[..k]).AtLeast(c.log.Get(i).id)
    ensures Run(c, es) && !Right(After(c, es))
  {
    var bound := Bound(c.written, c.tasks[..k]);
    var c1 := Next(c, Drop(i));
    DropStarts(c, i);
    assert c1.tasks[..k] == c.tasks[..k];
    var c2 := Next(c1, Disk(k));
    BoundGrows(c.written, c.tasks[..k], 0);
    assert c.tasks[..k][..0] == [];
    var c3 := Next(c2, DiskId(bound));
    var top := Top(c3.appliedId, bound);
    var c4 := Next(c3, AppliedId(top));
    FirstIsCleared(c2, c3, c4, bound);
    assert Lookup(c4, i) == c4.storage.Read(i) != c4.log.Read(i);
    es := [];
    RunFirst(c3, AppliedId(top), es);
    es := [AppliedId(top)] + es;
    RunFirst(c2, DiskId(bound), es);
    es := [DiskId(bound)] + es;
    RunFirst(c1, Disk(k), es);
    es := [Disk(k)] + es;
    RunFirst(c, Drop(i), es);
    es := [Drop(i)] + es;
  }

  lemma DropStarts(c: Cached, i: nat)
    requires Held(c) && c.log.Has(i) && MemStart(c.log, c.mem) <= i
    ensures var d := Next(c, Drop(i));
            && d.log.first == i && d.log.Has(i) && d.log.Get(i) == c.log.Get(i) && Suffix(d.mem, d.log)
            && d.mem != [] && d.mem[0] == c.log.Get(i) && MemStart(d.log, d.mem) == i
  {
    DropSuffix(c.log, c.mem, i);
  }

  /** Once both ids are at `bound`, a first entry whose id is not above it is gone from memory. */
  lemma FirstIsCleared(c2: Cached, c3: Cached, c4: Cached, bound: LogId)
    requires Possible(c2, DiskId(bound)) && c3 == Next(c2, DiskId(bound)) && bound.AtLeast(c2.diskId)
    requires Possible(c3, AppliedId(Top(c3.appliedId, bound))) && c4 == Next(c3, AppliedId(Top(c3.appliedId, bound)))
    requires Suffix(c2.mem, c2.log) && c2.log.first > 0 && c2.mem != [] && bound.AtLeast(c2.mem[0].id)
    ensures c4.log == c2.log && c4.storage == c2.storage && MemStart(c2.log, c2.mem) < MemStart(c4.log, c4.mem)
  {
    var m := UnclearedIs(c2.mem, ClearId(c3.diskId, c2.appliedId));
    var n := UnclearedIs(c3.mem, ClearId(c4.diskId, c4.appliedId));
    if m == 0 {
      assert c3.mem[0] == c2.mem[0];
    }
  }

  /** Reads stay right, whatever the disk thread, the state machine and snapshots do next, exactly when everything that
      is not in memory, or may leave it by its id, can be read from the storage now and at every later stage. */
  lemma RightForever(c: Cached)
    requires Held(c)
    ensures (forall es | Run(c, es) :: Right(After(c, es))) <==> Kept(c)
  {
    if Kept(c) {
      forall es | Run(c, es)
        ensures Right(After(c, es))
      {
        KeptForever(c, es);
      }
    } else {
      var mem := MemStart(c.log, c.mem);
      var k :| 0 <= k <= |c.tasks| && !StageOk(c.storage, c.tasks, c.log, mem, c.written, k);
      var stage := Replay(c.storage, c.tasks[..k]);
      var i :| c.log.Has(i) && !Stored(stage, c.log, i)
               && !(mem <= i && Less(Bound(c.written, c.tasks[..k]), c.log.Get(i).id));
      var es;
      if i < mem {
        es := LostFromStorage(c, k, i);
      } else {
        es := LostFromMemory(c, k, i);
      }
    }
  }

  // ---- with no more than the code does

  /** The disk thread goes on, or the state machine has applied an entry of the log. */
  predicate Plain(c: Cached, e: Event) {
    e.Disk? || e.DiskId? || (e.AppliedId? && c.log.Has(e.id.index) && c.log.Get(e.id.index).id == e.id)
  }

  predicate PlainRun(c: Cached, es: seq<Event>)
    ensures PlainRun(c, es) ==> Run(c, es)
    decreases |es|
  {
    es == [] || (Possible(c, es[0]) && Plain(c, es[0]) && PlainRun(Next(c, es[0]), es[1..]))
  }

  lemma PlainFirst(c: Cached, e: Event, es: seq<Event>)
    requires Possible(c, e) && Plain(c, e) && PlainRun(Next(c, e), es)
    ensures PlainRun(c, [e] + es) && After(c, [e] + es) == After(Next(c, e), es)
  {
    assert ([e] + es)[1..] == es;
  }

  /** Terms do not go back along the log, and what is applied is an entry of it or lies before it. */
  ghost predicate InOrder(log: Store, applied: LogId) {
    && (forall i, j | 0 <= i < j < |log.entries| :: log.entries[i].id.term <= log.entries[j].id.term)
    && applied.index <= log.Last() && (log.Has(applied.index) ==> log.Get(applied.index).id == applied)
  }

  /** Clearing up to an id that is not below that of an entry takes everything up to the entry. */
  lemma ClearedThrough(c: Cached, i: nat)
    requires Held(c) && InOrder(c.log, c.appliedId) && c.log.Has(i)
    requires ClearId(c.diskId, c.appliedId).AtLeast(c.log.Get(i).id)
    ensures i < MemStart(c.log, Cleared(c).mem)
  {
    var start, id := MemStart(c.log, c.mem), ClearId(c.diskId, c.appliedId);
    var n := UnclearedIs(c.mem, id);
    assert MemStart(c.log, c.mem[n..]) == start + n;
    assert n < |c.mem| ==> c.mem[n] == c.log.Get(start + n);
    IdsInOrder(c.log, c.appliedId, i);
  }

  lemma IdsInOrder(log: Store, applied: LogId, i: nat)
    requires log.Valid() && InOrder(log, applied) && log.Has(i)
    ensures forall j | log.Has(j) && j <= i :: log.Get(i).id.AtLeast(log.Get(j).id)
  {
    forall j | log.Has(j) && j <= i
      ensures log.Get(i).id.AtLeast(log.Get(j).id)
    {
      assert j < i ==> log.entries[j - log.first].id.term <= log.entries[i - log.first].id.term;
    }
  }

  /** The disk thread publishes what it has written, the entry is applied, and the memory has given it up. */
  lemma LostPlainly(c: Cached, k: nat, i: nat) returns (es: seq<Event>)
    requires Held(c) && InOrder(c.log, c.appliedId) && k <= |c.tasks| && c.log.Has(i)
    requires !Stored(Replay(c.storage, c.tasks[..k]), c.log, i) && Bound(c.written, c.tasks[..k]).AtLeast(c.log.Get(i).id)
    ensures PlainRun(c, es) && !Right(After(c, es))
  {
    HeldLog(c);
    hide HeldOk, InOrder, Store.Valid;
    var id, bound := c.log.Get(i).id, Bound(c.written, c.tasks[..k]);
    var c1 := Next(c, Disk(k));
    NextHeld(c, Disk(k));
    BoundGrows(c.written, c.tasks[..k], 0);
    assert c.tasks[..k][..0] == [];
    var c2 := Next(c1, DiskId(bound));
    NextHeld(c1, DiskId(bound));
    AppliedLater(c, c2, i);
    var c3 := Next(c2, AppliedId(id));
    if id.AtLeast(c2.appliedId) {
      InOrderHere(c, i);
      ClearedThrough(c2.(appliedId := id), i);
    } else {
      ClearedThrough(c1.(diskId := bound), i);
    }
    assert Lookup(c3, i) == c3.storage.Read(i) != c3.log.Read(i);
    es := [];
    PlainFirst(c2, AppliedId(id), es);
    es := [AppliedId(id)] + es;
    PlainFirst(c1, DiskId(bound), es);
    es := [DiskId(bound)] + es;
    PlainFirst(c, Disk(k), es);
    es := [Disk(k)] + es;
  }

  lemma HeldLog(c: Cached)
    requires Held(c)
    ensures c.log.Valid()
  {
  }

  lemma AppliedLater(c: Cached, d: Cached, i: nat)
    requires c.log.Valid() && InOrder(c.log, c.appliedId) && c.log.Has(i) && d.appliedId == c.appliedId
    ensures c.log.Get(i).id.index == i && Possible(d, AppliedId(c.log.Get(i).id))
  {
    if i < c.appliedId.index {
      assert c.log.Get(i).id.term <= c.log.Get(c.appliedId.index).id.term;
    }
  }

  lemma InOrderHere(c: Cached, i: nat)
    requires c.log.Valid() && InOrder(c.log, c.appliedId) && c.log.Has(i)
    ensures InOrder(c.log, c.log.Get(i).id)
  {
  }

  /** For a log in order the same holds when nothing happens but that the disk thread goes on and entries are applied. */
  lemma PlainRightForever(c: Cached)
    requires Held(c) && InOrder(c.log, c.appliedId)
    ensures (forall es | PlainRun(c, es) :: Right(After(c, es))) <==> Kept(c)
  {
    if Kept(c) {
      forall es | PlainRun(c, es)
        ensures Right(After(c, es))
      {
        KeptForever(c, es);
      }
    } else {
      var mem := MemStart(c.log, c.mem);
      var k :| 0 <= k <= |c.tasks| && !StageOk(c.storage, c.tasks, c.log, mem, c.written, k);
      var stage := Replay(c.storage, c.tasks[..k]);
      var i :| c.log.Has(i) && !Stored(stage, c.log, i)
               && !(mem <= i && Less(Bound(c.written, c.tasks[..k]), c.log.Get(i).id));
      var es;
      if i < mem {
        es := LostFromStorage(c, k, i);
        assert es[1..] == [];
      } else {
        es := LostPlainly(c, k, i);
      }
      assert PlainRun(c, es) && !Right(After(c, es));
    }
  }

  /** What appending makes of it. */
  function WithAppended(c: Cached, es: seq<LogEntry>): Cached {
    c.(tasks := c.tasks + [Append(es)], mem := c.mem + es, log := c.log.Append(es))
  }

  /** Appending entries to a log whose reads stay right keeps them right for good exactly when every added id is above
      all ids that count as written or are queued before it. */
  lemma AppendRightForever(c: Cached, entries: seq<LogEntry>)
    requires Held(c) && Kept(c) && entries != [] && Follows(c.log, entries)
    ensures (forall es | Run(WithAppended(c, entries), es) :: Right(After(WithAppended(c, entries), es)))
            <==> Above(Bound(c.written, c.tasks), entries)
  {
    hide HeldOk, ReadOk;
    ExtendLog(c.storage, c.tasks, c.log, c.mem, c.written, Append(entries));
    RightForever(WithAppended(c, entries));
  }

  /** The same for a log in order, when nothing happens but that the disk thread goes on and entries are applied. */
  lemma AppendPlainRightForever(c: Cached, entries: seq<LogEntry>)
    requires Held(c) && Kept(c) && entries != [] && Follows(c.log, entries) && InOrder(c.log.Append(entries), c.appliedId)
    ensures (forall es | PlainRun(WithAppended(c, entries), es) :: Right(After(WithAppended(c, entries), es)))
            <==> Above(Bound(c.written, c.tasks), entries)
  {
    hide HeldOk, ReadOk, InOrder;
    ExtendLog(c.storage, c.tasks, c.log, c.mem, c.written, Append(entries));
    PlainRightForever(WithAppended(c, entries));
  }
}
