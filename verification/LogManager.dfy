/** The log manager: one logical log, spread over the memory, the queue of disk operations and the storage,
    with a snapshot, a virtual first entry and the index of configurations beside it. */
module LogManagers {
  import opened Types
  import opened LogStorages
  import opened DiskQueues
  import opened DiskIds
  import opened ConfigurationManagers
  import opened LogManagerSpec
  import opened Evictions

  class LogManager {
    var logsInMemory: seq<LogEntry>
    var firstLogIndex: nat
    var lastLogIndex: int
    var diskId: LogId
    var appliedId: LogId
    var lastSnapshotId: LogId
    var virtualFirstLogId: LogId
    const configManager: ConfigurationManager

    // the storage, the tasks of the disk thread, how many of them are appends it has taken but not yet written,
    // the last id it wrote, and whether it is in the middle of a batch
    var storage: Store
    var tasks: seq<Task>
    var taken: nat
    var lastId: LogId
    var running: bool

    /** The log, the largest id that counts as written, the id of the entry right before the log, and the configuration
        in force there. */
    ghost var log: Store
    ghost var written: LogId
    ghost var dropped: LogId
    ghost var before: Config

    /** What every call keeps, reads right or not. */
    ghost predicate Sound()
      reads this, configManager
    {
      && HeldOk(storage, tasks, log, logsInMemory)
      && firstLogIndex == log.first && lastLogIndex == log.Last()
      && BesideOk(log, configManager.configurations, configManager.snapshot, virtualFirstLogId, appliedId, dropped, before)
      && configManager.snapshot.id == lastSnapshotId
      && written.AtLeast(diskId) && written.AtLeast(lastId)
      && TakenOk(tasks, taken)
    }

    /** What reads depend on. */
    ghost function View(): Cached
      reads this
    {
      Cached(storage, tasks, logsInMemory, log, written, diskId, appliedId)
    }

    ghost predicate Valid()
      reads this, configManager
    {
      Sound() && ReadOk(storage, tasks, log, logsInMemory, written)
    }

    /** Reads are right in a valid state, and stay so whatever the disk thread, the state machine and snapshots do; in
        every other sound state something they can do makes a read go wrong. */
    lemma ValidIsRightForever()
      requires Sound()
      ensures Valid() <==> forall es | Run(View(), es) :: Right(After(View(), es))
    {
      RightForever(View());
    }

    /** The snapshot has been set, or the log needs none. */
    ghost predicate Ready()
      reads this
    {
      Complete(log, lastSnapshotId)
    }

    /** The id that the disk thread carries along is the last one on disk. */
    ghost predicate LastIdCarried()
      reads this
    {
      IsLast(storage, tasks, lastId)
    }

    /** Ids grow, so that the disk thread always knows the last id on disk. */
    ghost predicate LastIdKnown()
      reads this
    {
      Tracks(tasks, log, written, dropped) && Settled(storage, tasks, lastId, written, diskId, running)
    }

    /** Takes over what a storage holds. The virtual first entry and the snapshot are not known yet, and the disk id is
        the last id of the storage, with term 0 when it has no entry. */
    constructor (config: ConfigurationManager, loaded: Store, ghost droppedId: LogId, ghost conf: Config)
      requires loaded.Valid() && TermsSet(loaded)
      requires config.configurations == ConfEntries(loaded.entries)
      requires config.snapshot == ConfigurationEntry(NoId, Config({}, {}))
      requires droppedId.index == loaded.first - 1
      requires if droppedId.index == 0 then droppedId == NoId && conf == Config({}, {}) else droppedId.term > 0
      ensures Valid() && configManager == config && log == storage == loaded && dropped == droppedId && before == conf
      ensures tasks == [] && taken == 0 && !running && lastSnapshotId == virtualFirstLogId == appliedId == NoId && logsInMemory == []
      ensures diskId == written == LogId(loaded.Last(), loaded.Term(loaded.Last()))
      ensures Growing(loaded, droppedId, diskId) ==> LastIdKnown()
    {
      configManager := config;
      logsInMemory, firstLogIndex, lastLogIndex := [], loaded.first, loaded.Last();
      diskId := LogId(loaded.Last(), loaded.Term(loaded.Last()));
      appliedId, lastSnapshotId, virtualFirstLogId := NoId, NoId, NoId;
      lastId := LogId(loaded.Last(), loaded.Term(loaded.Last()));
      storage, tasks, taken, running := loaded, [], 0, false;
      log, dropped, before := loaded, droppedId, conf;
      written := LogId(loaded.Last(), loaded.Term(loaded.Last()));
      new;
      hide HeldOk, ReadOk, BesideOk, TakenOk, Growing, Tracks, Settled, ConfEntries, TermsSet, Store.Valid, Store.Term;
      LoadedIsOk(loaded, written);
      LoadedBeside(loaded, droppedId, conf);
      if Growing(loaded, droppedId, written) {
        LoadedTracks(loaded, droppedId, written);
      }
    }

    // ---- reading

    method GetEntryFromMemory(index: int) returns (entry: Option<LogEntry>)
      requires Sound()
      ensures entry == if MemStart(log, logsInMemory) <= index <= log.Last() then Some(log.Get(index)) else None
    {
      hide Leads, Named, BesideOk;
      entry := None;
      if logsInMemory != [] {
        var firstIndex, lastIndex := logsInMemory[0].id.index, logsInMemory[|logsInMemory| - 1].id.index;
        assert logsInMemory[0] == log.entries[|log.entries| - |logsInMemory|];
        assert lastIndex - firstIndex + 1 == |logsInMemory|;
        if firstIndex <= index <= lastIndex {
          entry := Some(logsInMemory[index - firstIndex]);
        }
      }
    }

    lemma LogFacts()
      requires Sound()
      ensures log.Valid() && Suffix(logsInMemory, log) && Numbered(logsInMemory, MemStart(log, logsInMemory))
      ensures Consistent(log, lastSnapshotId) && StartOk(log, virtualFirstLogId, lastSnapshotId, dropped) && TermsSet(log)
      ensures lastSnapshotId.index <= appliedId.index && configManager.Valid()
      ensures configManager.configurations == ConfEntries(log.entries)
    {
      MemoryNumbered(storage, tasks, log, logsInMemory);
    }

    /** The entry at an index, from memory or from the storage: in a valid state that of the log. */
    method GetEntry(index: int) returns (entry: Option<LogEntry>)
      requires Sound()
      ensures entry == Lookup(View(), index)
      ensures Valid() ==> entry == log.Read(index)
    {
      hide HeldOk, ReadOk, BesideOk;
      entry := None;
      if firstLogIndex <= index <= lastLogIndex {
        entry := GetEntryFromMemory(index);
        if entry.None? {
          entry := storage.Read(index);
        }
      }
      if Valid() {
        KeptIsRight(View());
      }
    }

    /** The term at an index: TermIsTrue says which terms are told truly. */
    method UnsafeGetTerm(index: nat) returns (term: nat)
      requires Valid()
      ensures term == TermOf(log, virtualFirstLogId, lastSnapshotId, index)
      ensures log.Has(index) ==> term == log.Get(index).id.term
      ensures index == log.first - 1 ==>
                (term == dropped.term <==> log.first == 1 || virtualFirstLogId.index == index || lastSnapshotId.index == index)
      ensures index < log.first - 1 || index > log.Last() ==> term == 0
    {
      hide HeldOk, ReadOk, BesideOk, Consistent, StartOk, TermsSet;
      LogFacts();
      TermIsTrue(log, virtualFirstLogId, lastSnapshotId, dropped, index);
      if index == 0 {
        return 0;
      }
      if index == virtualFirstLogId.index {
        return virtualFirstLogId.term;
      }
      if index == lastSnapshotId.index {
        return lastSnapshotId.term;
      }
      if index > lastLogIndex || index < firstLogIndex {
        return 0;
      }
      var entry := GetEntry(index);
      term := entry.value.id.term;
    }

    /** The last id of the log: without entries, that of the snapshot, which is the last one dropped. */
    method GetLastLogId() returns (id: LogId)
      requires Valid()
      ensures log.entries != [] ==> id == LastIdOf(log.entries)
      ensures log.entries == [] ==> id == lastSnapshotId && (Ready() ==> id == dropped)
    {
      hide HeldOk, ReadOk, BesideOk;
      LogFacts();
      if lastLogIndex >= firstLogIndex {
        var term := UnsafeGetTerm(lastLogIndex);
        return LogId(lastLogIndex, term);
      }
      id := lastSnapshotId;
    }

    // ---- cutting and dropping

    static method PopAbove(mem: seq<LogEntry>, lastIndexKept: nat, ghost start: nat) returns (kept: seq<LogEntry>)
      requires Numbered(mem, start)
      ensures kept == mem[..Clamp(lastIndexKept + 1 - start, |mem|)]
    {
      kept := mem;
      while kept != [] && kept[|kept| - 1].id.index > lastIndexKept
        invariant kept <= mem && (|kept| == |mem| || |kept| >= lastIndexKept + 1 - start)
        decreases |kept|
      {
        kept := kept[..|kept| - 1];
      }
    }

    static method PopBelow(mem: seq<LogEntry>, firstIndexKept: nat, ghost start: nat) returns (kept: seq<LogEntry>)
      requires Numbered(mem, start)
      ensures kept == mem[Clamp(firstIndexKept - start, |mem|)..]
    {
      kept := mem;
      ghost var n := 0;
      while kept != [] && kept[0].id.index < firstIndexKept
        invariant n <= |mem| && kept == mem[n..] && (n == 0 || n <= firstIndexKept - start)
        decreases |kept|
      {
        kept := kept[1..];
        n := n + 1;
      }
    }

    /** Cuts the log behind `lastIndexKept`; going below what is applied is fatal. */
    method UnsafeTruncateSuffix(lastIndexKept: nat) returns (fatal: bool)
      requires Valid() && Ready() && lastIndexKept < log.Last()
      modifies this`logsInMemory, this`lastLogIndex, this`tasks, this`log, configManager`configurations
      ensures Valid() && Ready() && fatal == (lastIndexKept < appliedId.index)
      ensures fatal ==> log == old(log) && tasks == old(tasks)
      ensures !fatal ==>
                && log == old(log).TruncateSuffix(lastIndexKept)
                && tasks == old(tasks) + [TruncateSuffix(lastIndexKept,
                                                         TermOf(old(log), virtualFirstLogId, lastSnapshotId, lastIndexKept))]
                && (old(Tracks(tasks, log, written, dropped)) ==>
                      Tracks(tasks, log, written, dropped) && Bound(written, tasks) == old(Bound(written, tasks)))
    {
      hide HeldOk, ReadOk, BesideOk, Suffix, Numbered, CountBelow, ConfigurationManager.Valid, Clamp, MemStart, TakenOk,
           Store.Valid, Tracks, Bound;
      fatal := false;
      LogFacts();
      if lastIndexKept < appliedId.index {
        return true;
      }
      var term := UnsafeGetTerm(lastIndexKept);
      CutBeside(log, configManager.configurations, configManager.snapshot, virtualFirstLogId, appliedId, dropped, before,
                lastIndexKept);
      CutTerm(log, virtualFirstLogId, lastSnapshotId, appliedId, dropped, lastIndexKept);
      var t := TruncateSuffix(lastIndexKept, term);
      CutLog(storage, tasks, log, logsInMemory, written, t);
      TakenLonger(tasks, taken, t);
      if Tracks(tasks, log, written, dropped) {
        TracksCut(tasks, log, written, dropped, t);
      }
      var kept := PopAbove(logsInMemory, lastIndexKept, MemStart(log, logsInMemory));
      logsInMemory, lastLogIndex := kept, lastIndexKept;
      configManager.TruncateSuffix(lastIndexKept);
      tasks, log := tasks + [t], log.TruncateSuffix(lastIndexKept);
    }

    /** The log and its memory without what lies before `firstIndexKept`. */
    method DropFront(firstIndexKept: nat, ghost newDropped: LogId)
      requires HeldOk(storage, tasks, log, logsInMemory) && TakenOk(tasks, taken) && log.first <= firstIndexKept
      requires firstLogIndex == log.first && lastLogIndex == log.Last()
      requires firstIndexKept <= log.Last() ==> newDropped == IdBefore(log, dropped, firstIndexKept)
      modifies this`logsInMemory, this`firstLogIndex, this`lastLogIndex, this`tasks, this`log, this`dropped
      ensures HeldOk(storage, tasks, log, logsInMemory) && TakenOk(tasks, taken) && dropped == newDropped
      ensures View() == Dropped(old(View()), firstIndexKept)
      ensures old(ReadOk(storage, tasks, log, logsInMemory, written)) ==> ReadOk(storage, tasks, log, logsInMemory, written)
      ensures old(LastIdKnown()) ==> LastIdKnown()
      ensures firstLogIndex == log.first && lastLogIndex == log.Last() && log == old(log).TruncatePrefix(firstIndexKept)
    {
      hide HeldOk, ReadOk, Clamp, MemStart, TakenOk, Store.TruncatePrefix, Tracks, Settled, Numbered, IdBefore;
      DropFacts(firstIndexKept, newDropped);
      var kept := PopBelow(logsInMemory, firstIndexKept, MemStart(log, logsInMemory));
      var last := if firstIndexKept > lastLogIndex then firstIndexKept - 1 else lastLogIndex;
      logsInMemory, firstLogIndex, lastLogIndex := kept, firstIndexKept, last;
      tasks, log, dropped := tasks + [Task.TruncatePrefix(firstIndexKept)], log.TruncatePrefix(firstIndexKept), newDropped;
    }

    lemma DropFacts(index: nat, newDropped: LogId)
      requires HeldOk(storage, tasks, log, logsInMemory) && TakenOk(tasks, taken) && log.first <= index
      requires index <= log.Last() ==> newDropped == IdBefore(log, dropped, index)
      ensures Numbered(logsInMemory, MemStart(log, logsInMemory))
      ensures var c := Dropped(View(), index);
              && HeldOk(storage, c.tasks, c.log, c.mem) && TakenOk(c.tasks, taken)
              && (ReadOk(storage, tasks, log, logsInMemory, written) ==> ReadOk(storage, c.tasks, c.log, c.mem, written))
              && c.log.first == index && c.log.Last() == (if index > log.Last() then index - 1 else log.Last())
              && (LastIdKnown() ==>
                    && Tracks(c.tasks, c.log, written, newDropped)
                    && Settled(storage, c.tasks, lastId, written, diskId, running))
    {
      hide HeldOk, ReadOk, Clamp, MemStart, TakenOk, Store.TruncatePrefix, Tracks, Settled, Numbered, IdBefore;
      MemoryNumbered(storage, tasks, log, logsInMemory);
      DroppedEnds(log, index);
      var t := Task.TruncatePrefix(index);
      DropLog(storage, tasks, log, logsInMemory, written, t);
      TakenLonger(tasks, taken, t);
      if LastIdKnown() {
        KnownDropped(t, newDropped);
      }
    }

    lemma KnownDropped(t: Task, newDropped: LogId)
      requires LastIdKnown() && t.TruncatePrefix? && log.first <= t.index
      requires t.index <= log.Last() ==> newDropped == IdBefore(log, dropped, t.index)
      ensures Tracks(tasks + [t], log.TruncatePrefix(t.index), written, newDropped)
      ensures Settled(storage, tasks + [t], lastId, written, diskId, running)
    {
      hide Tracks, Settled, IdBefore;
      TracksDrop(tasks, log, written, dropped, t, newDropped);
      NoCut(t);
      SettledLonger(storage, tasks, lastId, written, diskId, running, [t]);
    }

    /** Drops the log up to the entry `virtual`, which becomes the virtual first entry. */
    method TruncatePrefix(virtual: LogId)
      requires Sound() && log.first - 1 <= virtual.index <= lastSnapshotId.index && 0 < virtual.index
      requires virtual == IdBefore(log, dropped, virtual.index + 1)
      modifies this`logsInMemory, this`firstLogIndex, this`lastLogIndex, this`virtualFirstLogId, this`tasks, this`log,
               this`dropped, this`before, configManager`configurations
      ensures Sound() && (old(Valid()) ==> Valid()) && (old(LastIdKnown()) ==> LastIdKnown())
      ensures View() == Dropped(old(View()), virtual.index + 1)
      ensures virtualFirstLogId == dropped == virtual && log == old(log).TruncatePrefix(virtual.index + 1)
    {
      hide HeldOk, ReadOk, BesideOk, Suffix, Numbered, CountBelow, ReplayConf, TakenOk, Store.Valid, Store.TruncatePrefix,
           ConfigurationManager.Valid, Tracks, Settled, Dropped, IdBefore, Consistent, StartOk, TermsSet, ConfEntries,
           LogId.AtLeast;
      LogFacts();
      ghost var newBefore := DropBeside(log, configManager.configurations, configManager.snapshot, virtualFirstLogId,
                                        appliedId, dropped, before, virtual);
      virtualFirstLogId, before := virtual, newBefore;
      DropFront(virtual.index + 1, virtual);
      configManager.TruncatePrefix(virtual.index + 1);
    }

    // ---- snapshots

    /** A snapshot behind which the log starts, and the index of configurations behind it. */
    method Install(meta: ConfigurationEntry, applied: LogId)
      requires configManager.Valid() && meta.id.AtLeast(configManager.snapshot.id)
      modifies this`lastSnapshotId, this`virtualFirstLogId, this`appliedId, this`before, configManager
      ensures lastSnapshotId == virtualFirstLogId == meta.id && appliedId == applied && before == meta.conf
      ensures configManager.Valid() && configManager.snapshot == meta
      ensures var cs := old(configManager.configurations);
              configManager.configurations == cs[CountBelow(cs, meta.id.index + 1)..]
    {
      hide CountBelow, LogId.AtLeast;
      lastSnapshotId, virtualFirstLogId, appliedId, before := meta.id, meta.id, applied, meta.conf;
      configManager.SetSnapshot(meta);
      configManager.TruncatePrefix(meta.id.index + 1);
    }

    /** The log ends before the new snapshot, and all of it goes, or it starts right behind it and stays. */
    method DropToSnapshot(meta: ConfigurationEntry, applied: LogId)
      requires Valid() && !log.Has(meta.id.index) && log.first - 1 <= meta.id.index <= applied.index && 0 < meta.id.index
      requires meta.id.term > 0 && meta.id.AtLeast(lastSnapshotId) && (meta.id.index == log.first - 1 ==> meta.id == dropped)
      modifies this, configManager
      ensures Valid() && Ready() && lastSnapshotId == virtualFirstLogId == dropped == meta.id
      ensures appliedId == applied && before == meta.conf && (old(LastIdKnown()) ==> LastIdKnown())
      ensures log == if meta.id.index == old(log).first - 1 then old(log) else Store(meta.id.index + 1, [])
    {
      hide HeldOk, ReadOk, BesideOk, Suffix, Numbered, CountBelow, ReplayConf, TakenOk, Store.Valid, Store.TruncatePrefix,
           ConfigurationManager.Valid, Tracks, Settled, Dropped, IdBefore, Consistent, StartOk, TermsSet, ConfEntries,
           LogId.AtLeast;
      LogFacts();
      BeforeStart(log, dropped);
      DroppedAll(log, meta.id.index + 1);
      ReplaceBeside(log, configManager.configurations, meta, applied);
      Install(meta, applied);
      DropFront(meta.id.index + 1, meta.id);
    }

    /** An empty log that goes on behind `last`. */
    method StartAfresh(last: LogId)
      requires HeldOk(storage, tasks, log, logsInMemory) && TakenOk(tasks, taken)
      modifies this`logsInMemory, this`firstLogIndex, this`lastLogIndex, this`tasks, this`log, this`dropped
      ensures LogOk(storage, tasks, log, logsInMemory, written) && TakenOk(tasks, taken) && dropped == last
      ensures old(LastIdKnown()) ==> LastIdKnown()
      ensures log == Store(last.index + 1, []) && firstLogIndex == last.index + 1 && lastLogIndex == last.index
    {
      hide HeldOk, ReadOk, TakenOk, Tracks, Settled;
      var t := Task.Reset(last.index + 1);
      ResetLog(storage, tasks, log, logsInMemory, written, t);
      TakenLonger(tasks, taken, t);
      if LastIdKnown() {
        NoCut(t);
        TracksQuiet(tasks, log, written, dropped, t, last);
        SettledLonger(storage, tasks, lastId, written, diskId, running, [t]);
      }
      logsInMemory, firstLogIndex, lastLogIndex := [], last.index + 1, last.index;
      tasks, log, dropped := tasks + [t], Store(last.index + 1, []), last;
    }

    /** The log disagrees with the new snapshot: it starts afresh behind it. */
    method ResetToSnapshot(meta: ConfigurationEntry, applied: LogId)
      requires Valid() && 0 < meta.id.index <= applied.index && meta.id.term > 0 && meta.id.AtLeast(lastSnapshotId)
      modifies this, configManager
      ensures Valid() && Ready() && lastSnapshotId == virtualFirstLogId == dropped == meta.id
      ensures appliedId == applied && before == meta.conf
      ensures log == Store(meta.id.index + 1, []) && (old(LastIdKnown()) ==> LastIdKnown())
    {
      hide HeldOk, ReadOk, BesideOk, CountBelow, ReplayConf, TakenOk, Store.Valid, ConfigurationManager.Valid, Suffix, Numbered,
           Tracks, Settled;
      LogFacts();
      var next := meta.id.index + 1;
      EmptyBeside(meta, applied);
      StartAfresh(meta.id);
      NothingBetween(configManager.configurations, next);
      Install(meta, applied);
      configManager.TruncateSuffix(next - 1);
    }

    /** The log holds what the new snapshot covers: everything before the previous snapshot goes. */
    method DropToPrevious(meta: ConfigurationEntry, applied: LogId)
      requires Valid() && log.Has(meta.id.index) && log.Get(meta.id.index).id.term == meta.id.term
      requires lastSnapshotId.index < meta.id.index <= applied.index && meta.id.AtLeast(lastSnapshotId)
      requires meta.conf == ReplayConf(before, log.entries[..meta.id.index + 1 - log.first])
      modifies this, configManager
      ensures Valid() && Ready() && lastSnapshotId == meta.id && appliedId == applied && (old(LastIdKnown()) ==> LastIdKnown())
      ensures if old(lastSnapshotId).index > 0 then
                && log == old(log).TruncatePrefix(old(lastSnapshotId).index + 1)
                && virtualFirstLogId == dropped == old(lastSnapshotId)
              else log == old(log) && virtualFirstLogId == old(virtualFirstLogId) && dropped == old(dropped)
    {
      hide HeldOk, ReadOk, BesideOk, CountBelow, ReplayConf, TakenOk, Store.Valid, ConfigurationManager.Valid, Tracks, Settled;
      SnapshotTerm(meta.id.index);
      var lastButOne := lastSnapshotId;
      NewerBeside(log, configManager.configurations, configManager.snapshot, virtualFirstLogId, appliedId, dropped, before,
                  meta, applied);
      configManager.SetSnapshot(meta);
      lastSnapshotId, appliedId := meta.id, applied;
      if lastButOne.index > 0 {
        TruncatePrefix(lastButOne);
      }
    }

    /** A new snapshot. An older one is ignored; one below a log that was just loaded is fatal; one beyond the log, or
        one the log disagrees with, replaces the log; one within the log lets everything go that lies before the
        previous snapshot. */
    method SetSnapshot(meta: ConfigurationEntry) returns (fatal: bool)
      requires Valid() && meta.id.term > 0
      requires meta.id.index > lastSnapshotId.index ==>
                 && meta.id.AtLeast(lastSnapshotId) && (appliedId.AtLeast(meta.id) ==> meta.id.index <= appliedId.index)
                 && (meta.id.index == log.first - 1 ==> meta.id == dropped)
      requires log.Has(meta.id.index) && log.Get(meta.id.index).id.term == meta.id.term ==>
                 meta.conf == ReplayConf(before, log.entries[..meta.id.index + 1 - log.first])
      modifies this, configManager
      ensures Valid() && (old(LastIdKnown()) ==> LastIdKnown())
      ensures fatal == (old(lastSnapshotId).index < meta.id.index < old(log).first - 1) && (old(Ready()) ==> Ready() && !fatal)
      ensures lastSnapshotId == if fatal || meta.id.index <= old(lastSnapshotId).index then old(lastSnapshotId) else meta.id
      ensures !fatal && meta.id.index > old(lastSnapshotId).index ==>
                && Ready()
                && if old(log).Has(meta.id.index) && old(log).Get(meta.id.index).id.term == meta.id.term then
                     if old(lastSnapshotId).index > 0 then
                       && log == old(log).TruncatePrefix(old(lastSnapshotId).index + 1)
                       && virtualFirstLogId == dropped == old(lastSnapshotId)
                     else log == old(log) && virtualFirstLogId == old(virtualFirstLogId) && dropped == old(dropped)
                   else
                     && virtualFirstLogId == dropped == meta.id
                     && log == if meta.id.index == old(log).first - 1 then old(log) else Store(meta.id.index + 1, [])
    {
      hide HeldOk, ReadOk, BesideOk, ReplayConf, TakenOk, Store.Valid, Store.TruncatePrefix, Tracks, Settled;
      fatal := false;
      if meta.id.index <= lastSnapshotId.index {
        return;
      }
      var term := UnsafeGetTerm(meta.id.index);
      SnapshotTerm(meta.id.index);
      var applied := if appliedId.AtLeast(meta.id) then appliedId else meta.id;
      if term == 0 {
        if meta.id.index + 1 < firstLogIndex {
          return true;
        }
        DropToSnapshot(meta, applied);
      } else if term == meta.id.term {
        DropToPrevious(meta, applied);
      } else {
        ResetToSnapshot(meta, applied);
      }
    }

    /** No term at the index of a new snapshot means that it does not lie within the log. */
    lemma SnapshotTerm(index: nat)
      requires Sound() && index > lastSnapshotId.index
      ensures var term := TermOf(log, virtualFirstLogId, lastSnapshotId, index);
              term == 0 <==> !log.Has(index)
      ensures lastSnapshotId.index > 0 ==>
                log.first - 1 <= lastSnapshotId.index && lastSnapshotId == IdBefore(log, dropped, lastSnapshotId.index + 1)
    {
    }

    /** Everything before the last snapshot goes. */
    method ClearBufferedLogs()
      requires Sound()
      modifies this, configManager
      ensures Sound() && (old(Valid()) ==> Valid()) && (old(LastIdKnown()) ==> LastIdKnown())
      ensures lastSnapshotId == old(lastSnapshotId)
      ensures if lastSnapshotId.index == 0 then log == old(log) && dropped == old(dropped)
              else log == old(log).TruncatePrefix(lastSnapshotId.index + 1) && virtualFirstLogId == dropped == lastSnapshotId
    {
      hide HeldOk, ReadOk, BesideOk, TakenOk, ConfigurationManager.Valid, Tracks, Settled;
      SnapshotTerm(lastSnapshotId.index + 1);
      if lastSnapshotId.index != 0 {
        TruncatePrefix(lastSnapshotId);
      }
    }

    /** The check a node makes when it starts: only a loaded log that misses its snapshot fails it. */
    method CheckConsistency() returns (ok: bool)
      requires Sound()
      ensures ok <==> Ready()
    {
      hide HeldOk;
      if lastSnapshotId == NoId {
        return firstLogIndex == 1;
      }
      ok := firstLogIndex - 1 <= lastSnapshotId.index <= lastLogIndex;
    }

    // ---- appending

    /** How many of a follower's entries the log has with the same terms. */
    method FindConflict(entries: seq<LogEntry>) returns (n: nat)
      requires Valid()
      ensures n == Agreeing(log, virtualFirstLogId, lastSnapshotId, entries)
    {
      hide HeldOk, ReadOk, BesideOk;
      n := 0;
      while n < |entries|
        invariant n <= |entries|
        invariant forall k | 0 <= k < n ::
                    TermOf(log, virtualFirstLogId, lastSnapshotId, entries[k].id.index) == entries[k].id.term
      {
        var term := UnsafeGetTerm(entries[n].id.index);
        if term != entries[n].id.term {
          break;
        }
        n := n + 1;
      }
      AgreeingIs(log, virtualFirstLogId, lastSnapshotId, entries, n);
    }

    /** Cuts off what a follower's entries conflict with, unless it is applied. */
    method CutConflict(entries: seq<LogEntry>) returns (fatal: bool, n: nat)
      requires Valid() && Ready() && entries != [] && 0 < entries[0].id.index <= log.Last() + 1
      requires Numbered(entries, entries[0].id.index)
      requires forall k {:trigger entries[k]} | 0 <= k < |entries| :: entries[k].id.term > 0
      modifies this`logsInMemory, this`lastLogIndex, this`tasks, this`log, configManager`configurations
      ensures Valid() && Ready() && n == Agreeing(old(log), virtualFirstLogId, lastSnapshotId, entries)
      ensures fatal == (Cuts(old(log), virtualFirstLogId, lastSnapshotId, entries) && entries[n].id.index <= appliedId.index)
      ensures log == if fatal then old(log) else CutFor(old(log), virtualFirstLogId, lastSnapshotId, entries)
      ensures tasks == if fatal then old(tasks)
                       else old(tasks) + CutTasks(old(log), virtualFirstLogId, lastSnapshotId, entries)
      ensures old(Tracks(tasks, log, written, dropped)) ==>
                Tracks(tasks, log, written, dropped) && Bound(written, tasks) == old(Bound(written, tasks))
    {
      hide HeldOk, ReadOk, BesideOk, Bound, Agreeing, TermOf, Tracks, TermsSet, TakenOk, Store.TruncateSuffix;
      LogFacts();
      ResolvedIs(log, virtualFirstLogId, lastSnapshotId, entries, entries[0].id.index);
      fatal, n := false, 0;
      if entries[0].id.index <= lastLogIndex {
        n := FindConflict(entries);
        if n != |entries| && entries[n].id.index <= lastLogIndex {
          fatal := UnsafeTruncateSuffix(entries[n].id.index - 1);
        }
      }
    }

    /** Whether a follower's entries can be appended, and which of them are left to append once everything they
        conflict with is cut off. */
    method CheckAndResolveConflict(entries: seq<LogEntry>) returns (outcome: Outcome, rest: seq<LogEntry>)
      requires Valid() && Ready() && entries != [] && entries[0].id.index > 0 && Numbered(entries, entries[0].id.index)
      requires forall k {:trigger entries[k]} | 0 <= k < |entries| :: entries[k].id.term > 0
      modifies this`logsInMemory, this`lastLogIndex, this`tasks, this`log, configManager`configurations
      ensures Valid() && Ready() && outcome == FollowerOutcome(old(log), virtualFirstLogId, lastSnapshotId, appliedId, entries)
      ensures outcome != Appended ==> log == old(log) && tasks == old(tasks)
      ensures outcome == Appended ==>
                && rest == entries[Agreeing(old(log), virtualFirstLogId, lastSnapshotId, entries)..]
                && log.Append(rest) == Resolved(old(log), virtualFirstLogId, lastSnapshotId, entries)
                && Follows(log, rest)
                && tasks == old(tasks) + CutTasks(old(log), virtualFirstLogId, lastSnapshotId, entries)
      ensures old(Tracks(tasks, log, written, dropped)) ==>
                Tracks(tasks, log, written, dropped) && Bound(written, tasks) == old(Bound(written, tasks))
    {
      hide HeldOk, ReadOk, BesideOk, Bound, Agreeing, Resolved, TermOf, Follows, Tracks, TermsSet, CutTasks, TakenOk, CutFor;
      rest := [];
      LogFacts();
      var firstIndex, lastIndex := entries[0].id.index, entries[|entries| - 1].id.index;
      if firstIndex > lastLogIndex + 1 {
        return Gap, rest;
      }
      if lastIndex <= appliedId.index {
        return AlreadyApplied, rest;
      }
      ResolvedIs(log, virtualFirstLogId, lastSnapshotId, entries, firstIndex);
      var fatal, n := CutConflict(entries);
      if fatal {
        return Fatal, rest;
      }
      rest := entries[n..];
      outcome := Appended;
    }

    method AddConfigurations(entries: seq<LogEntry>)
      requires log.Valid() && Follows(log, entries) && configManager.configurations == ConfEntries(log.entries)
      requires configManager.Valid()
      modifies configManager`configurations
      ensures configManager.configurations == old(configManager.configurations) + ConfEntries(entries)
    {
      hide ConfEntries, Follows;
      var i := 0;
      NoConfYet(entries);
      while i < |entries|
        invariant i <= |entries| && configManager.Valid()
        invariant configManager.configurations == old(configManager.configurations) + ConfEntries(entries[..i])
      {
        NextConfFits(log, entries, i);
        if entries[i].payload.Conf? {
          var _ := configManager.Add(ConfigurationEntry(entries[i].id, entries[i].payload.conf));
        }
        i := i + 1;
      }
      assert entries[..i] == entries;
    }

    lemma NoConfYet(entries: seq<LogEntry>)
      ensures ConfEntries(entries[..0]) == []
    {
    }

    /** Puts entries that continue the log into memory and on the disk queue. The log manager stays in order exactly
        when their ids are above all ids before them. */
    method PushEntries(entries: seq<LogEntry>)
      requires Valid() && Follows(log, entries)
      requires forall k {:trigger entries[k]} | 0 <= k < |entries| :: entries[k].id.term > 0
      modifies this`logsInMemory, this`lastLogIndex, this`tasks, this`log, configManager`configurations
      ensures log == old(log).Append(entries) && tasks == old(tasks) + [if entries == [] then Done else Append(entries)]
      ensures logsInMemory == old(logsInMemory) + entries
      ensures Sound() && (Valid() <==> Above(old(Bound(written, tasks)), entries))
      ensures old(Tracks(tasks, log, written, dropped)) && Rising(old(Bound(written, tasks)), dropped, entries) ==>
                Tracks(tasks, log, written, dropped)
    {
      hide HeldOk, ReadOk, BesideOk, Bound, TakenOk, ConfEntries, Store.Valid, TermsSet, Tracks, Rising;
      LogFacts();
      ExtendBeside(log, configManager.configurations, configManager.snapshot, virtualFirstLogId, appliedId, dropped, before,
                   entries);
      var t := if entries == [] then Done else Append(entries);
      TakenLonger(tasks, taken, t);
      PushLog(entries, t);
      AddConfigurations(entries);
      logsInMemory, lastLogIndex := logsInMemory + entries, lastLogIndex + |entries|;
      tasks, log := tasks + [t], log.Append(entries);
    }

    lemma PushLog(entries: seq<LogEntry>, t: Task)
      requires Valid() && Follows(log, entries) && t == if entries == [] then Done else Append(entries)
      ensures HeldOk(storage, tasks + [t], log.Append(entries), logsInMemory + entries)
      ensures ReadOk(storage, tasks + [t], log.Append(entries), logsInMemory + entries, written)
              <==> Above(Bound(written, tasks), entries)
      ensures Tracks(tasks, log, written, dropped) && Rising(Bound(written, tasks), dropped, entries) ==>
                Tracks(tasks + [t], log.Append(entries), written, dropped)
    {
      hide HeldOk, ReadOk, BesideOk, Bound, TakenOk, Tracks, Rising;
      if entries == [] {
        QuietLog(storage, tasks, log, logsInMemory, written, t);
        assert logsInMemory + entries == logsInMemory && log.Append(entries) == log;
      } else {
        ExtendLog(storage, tasks, log, logsInMemory, written, t);
      }
      if Tracks(tasks, log, written, dropped) && Rising(Bound(written, tasks), dropped, entries) {
        if entries == [] {
          TracksQuiet(tasks, log, written, dropped, t, dropped);
        } else {
          TracksAppend(tasks, log, written, dropped, t);
        }
      }
    }

    /** Numbers a leader's entries, or resolves a follower's against the log: what is left to append, and the log and the
        tasks that it goes behind. */
    method Prepare(entries: seq<LogEntry>) returns (outcome: Outcome, added: seq<LogEntry>)
      requires Valid() && Ready() && entries != [] && (entries[0].id.index > 0 ==> Numbered(entries, entries[0].id.index))
      requires forall k {:trigger entries[k]} | 0 <= k < |entries| :: entries[k].id.term > 0
      modifies this`logsInMemory, this`lastLogIndex, this`tasks, this`log, configManager`configurations
      ensures Valid() && Ready()
      ensures outcome == if entries[0].id.index == 0 then Appended
                         else FollowerOutcome(old(log), virtualFirstLogId, lastSnapshotId, appliedId, entries)
      ensures outcome != Appended ==> log == old(log) && tasks == old(tasks)
      ensures outcome == Appended ==>
                && added == Added(old(log), virtualFirstLogId, lastSnapshotId, entries) && Follows(log, added)
                && log.Append(added) == Extended(old(log), virtualFirstLogId, lastSnapshotId, entries)
                && tasks == old(tasks) + CutTasks(old(log), virtualFirstLogId, lastSnapshotId, entries)
                && (forall k {:trigger added[k]} | 0 <= k < |added| :: added[k].id.term > 0)
      ensures old(Tracks(tasks, log, written, dropped)) ==>
                Tracks(tasks, log, written, dropped) && Bound(written, tasks) == old(Bound(written, tasks))
    {
      hide HeldOk, ReadOk, BesideOk, Bound, Agreeing, Resolved, FollowerOutcome, Tracks, TakenOk, Consistent, StartOk,
           TermsSet, Suffix, ConfEntries, LogId.AtLeast;
      outcome, added := Appended, [];
      LogFacts();
      if entries[0].id.index == 0 {
        added := Renumbered(entries, lastLogIndex + 1);
      } else {
        outcome, added := CheckAndResolveConflict(entries);
      }
    }

    /** Appends a leader's entries, which carry no index yet, or resolves a follower's entries against the log. Reads
        stay right for good exactly when what is appended has ids above all ids that come before it; the last id on
        disk stays known while ids grow. */
    method AppendEntries(entries: seq<LogEntry>) returns (outcome: Outcome)
      requires Valid() && Ready() && entries != [] && (entries[0].id.index > 0 ==> Numbered(entries, entries[0].id.index))
      requires forall k {:trigger entries[k]} | 0 <= k < |entries| :: entries[k].id.term > 0
      modifies this`logsInMemory, this`lastLogIndex, this`tasks, this`log, configManager`configurations
      ensures Sound() && Ready()
      ensures outcome == if entries[0].id.index == 0 then Appended
                         else FollowerOutcome(old(log), virtualFirstLogId, lastSnapshotId, appliedId, entries)
      ensures outcome != Appended ==> Valid() && log == old(log) && tasks == old(tasks)
      ensures outcome == Appended ==>
                var added := Added(old(log), virtualFirstLogId, lastSnapshotId, entries);
                && log == Extended(old(log), virtualFirstLogId, lastSnapshotId, entries)
                && tasks == old(tasks) + Queued(old(log), virtualFirstLogId, lastSnapshotId, entries)
                && (Valid() <==> Above(Bound(written, tasks[..|tasks| - 1]), added))
                && (old(LastIdKnown()) && Rising(old(Bound(written, tasks)), dropped, added) ==> Valid() && LastIdKnown())
      ensures outcome != Appended && old(LastIdKnown()) ==> LastIdKnown()
    {
      hide HeldOk, ReadOk, BesideOk, Bound, FollowerOutcome, Tracks, Above, Settled, TakenOk, Rising, Extended, Added,
           CutTasks, Numbered, LogId.AtLeast, Follows;
      var added;
      outcome, added := Prepare(entries);
      ghost var cut := tasks;
      if outcome == Appended {
        PushEntries(added);
        assert tasks[..|tasks| - 1] == cut;
        if old(LastIdKnown()) {
          RisingIsAbove(old(Bound(written, tasks)), dropped, added);
          CutOrNothing(old(log), entries);
          FollowedLonger(old(tasks), tasks);
        }
      }
    }

    lemma CutOrNothing(was: Store, entries: seq<LogEntry>)
      requires entries != []
      ensures var cut := CutTasks(was, virtualFirstLogId, lastSnapshotId, entries);
              |cut| <= 1 && (cut != [] ==> Added(was, virtualFirstLogId, lastSnapshotId, entries) != [])
    {
    }

    lemma RisingIsAbove(bound: LogId, last: LogId, es: seq<LogEntry>)
      ensures Rising(bound, last, es) ==> Above(bound, es)
    {
    }

    /** What an append queues: at most a cut, and then not without the append behind it. */
    lemma FollowedLonger(was: seq<Task>, now: seq<Task>)
      requires Settled(storage, was, lastId, written, diskId, running) && was <= now && |now| <= |was| + 2
      requires |now| == |was| + 1 ==> !now[|was|].TruncateSuffix?
      requires |now| == |was| + 2 ==> now[|was| + 1].Append?
      ensures Settled(storage, now, lastId, written, diskId, running)
    {
      assert now == was + now[|was|..];
      SettledLonger(storage, was, lastId, written, diskId, running, now[|was|..]);
    }

    // ---- evicting

    /** Drops from memory, at most 256 entries under one lock, what has an id up to `id`. */
    method ClearMemoryLogs(id: LogId)
      requires Sound() && written.AtLeast(id)
      modifies this`logsInMemory
      ensures Sound() && (old(Valid()) ==> Valid()) && logsInMemory == Uncleared(old(logsInMemory), id)
    {
      hide HeldOk, ReadOk, BesideOk, TakenOk;
      var more := true;
      while more
        invariant Sound() && (old(Valid()) ==> Valid())
        invariant Uncleared(old(logsInMemory), id) == Uncleared(logsInMemory, id)
        invariant more || logsInMemory == [] || Less(id, logsInMemory[0].id)
        decreases more, |logsInMemory|
      {
        var n := 0;
        while n < |logsInMemory| && n < 256 && id.AtLeast(logsInMemory[n].id)
          invariant n <= |logsInMemory| && n <= 256
          invariant forall k | 0 <= k < n :: id.AtLeast(logsInMemory[k].id)
        {
          n := n + 1;
        }
        EvictLog(storage, tasks, log, logsInMemory, written, n);
        UnclearedFrom(logsInMemory, id, n);
        logsInMemory := logsInMemory[n..];
        more := n == 256;
      }
    }

    /** The state machine has applied up to `id`; an older id is ignored. */
    method SetAppliedId(id: LogId)
      requires Sound() && Possible(View(), AppliedId(id))
      modifies this`appliedId, this`logsInMemory
      ensures Sound() && (old(Valid()) ==> Valid()) && View() == Next(old(View()), AppliedId(id))
    {
      hide HeldOk, ReadOk, TakenOk, IndexOk, Consistent, StartOk, TermsSet;
      if !id.AtLeast(appliedId) {
        return;
      }
      appliedId := id;
      ClearMemoryLogs(ClearId(diskId, appliedId));
    }

    /** The disk thread has written up to `id`; an older id is ignored. */
    method SetDiskId(id: LogId)
      requires Sound() && Possible(View(), DiskId(id))
      modifies this`diskId, this`logsInMemory
      ensures Sound() && (old(Valid()) ==> Valid()) && View() == Next(old(View()), DiskId(id))
    {
      hide HeldOk, ReadOk, BesideOk, TakenOk;
      if !id.AtLeast(diskId) {
        return;
      }
      diskId := id;
      ClearMemoryLogs(ClearId(diskId, appliedId));
    }

    // ---- the disk thread

    /** A batch starts from the last id that was published. */
    method StartBatch()
      requires Sound() && !running && taken == 0
      modifies this`lastId, this`running
      ensures Sound() && running && (old(Valid()) ==> Valid()) && (old(LastIdKnown()) ==> LastIdKnown())
      ensures LastIdCarried() <==> IsLast(storage, tasks, diskId)
    {
      hide HeldOk, ReadOk, BesideOk, TakenOk, Tracks;
      lastId, running := diskId, true;
    }

    static method Collect(tasks: seq<Task>, n: nat) returns (toAppend: seq<LogEntry>)
      requires TakenOk(tasks, n)
      ensures toAppend == Entries(tasks[..n])
    {
      toAppend := [];
      var i := 0;
      while i < n
        invariant i <= n && toAppend == Entries(tasks[..i])
      {
        assert tasks[..i + 1][..i] == tasks[..i];
        toAppend := toAppend + tasks[i].entries;
        i := i + 1;
      }
    }

    /** Writes the collected appends. The id carried along is then the last one on disk, whatever it was before. */
    method WriteOut()
      requires Sound() && running && taken > 0
      modifies this`storage, this`tasks, this`taken, this`lastId, this`written
      ensures Sound() && (old(Valid()) ==> Valid()) && (old(LastIdKnown()) ==> LastIdKnown())
      ensures taken == 0 && View() == Next(old(View()), Disk(old(taken))) && LastIdCarried()
    {
      hide HeldOk, ReadOk, BesideOk, IsLast, Tracks, CutsFollowed, Replay, Bound, Entries;
      var toAppend := Collect(tasks, taken);
      FlushFacts(toAppend);
      if LastIdKnown() {
        FlushTracks();
      }
      lastId, written := LastIdOf(tasks[taken - 1].entries), Bound(written, tasks[..taken]);
      storage, tasks, taken := storage.Append(toAppend), tasks[taken..], 0;
    }

    /** Writes what has been collected, if anything. */
    method Flush()
      requires Sound() && running
      modifies this`storage, this`tasks, this`taken, this`lastId, this`written
      ensures Sound() && (old(Valid()) ==> Valid()) && (old(LastIdKnown()) ==> LastIdKnown())
      ensures taken == 0 && View() == Next(old(View()), Disk(old(taken)))
      ensures old(taken) > 0 || old(LastIdCarried()) ==> LastIdCarried()
      ensures old(taken) == 0 ==> lastId == old(lastId)
    {
      hide HeldOk, ReadOk, BesideOk, IsLast, Tracks, Settled;
      if taken > 0 {
        WriteOut();
      } else {
        NothingRun(View());
      }
    }

    lemma FlushFacts(toAppend: seq<LogEntry>)
      requires Sound() && 0 < taken && toAppend == Entries(tasks[..taken])
      ensures storage.Append(toAppend) == Replay(storage, tasks[..taken]) && TakenOk(tasks[taken..], 0)
      ensures HeldOk(storage.Append(toAppend), tasks[taken..], log, logsInMemory)
      ensures ReadOk(storage, tasks, log, logsInMemory, written) ==>
                ReadOk(storage.Append(toAppend), tasks[taken..], log, logsInMemory, Bound(written, tasks[..taken]))
      ensures tasks[taken - 1].Append? && tasks[taken - 1].entries != []
      ensures Bound(written, tasks[..taken]).AtLeast(written)
      ensures Bound(written, tasks[..taken]).AtLeast(LastIdOf(tasks[taken - 1].entries))
      ensures IsLast(storage.Append(toAppend), tasks[taken..], LastIdOf(tasks[taken - 1].entries))
      ensures CutsFollowed(tasks) ==> CutsFollowed(tasks[taken..])
    {
      hide HeldOk, ReadOk, BesideOk, CutsFollowed, IsLast;
      var front := tasks[..taken];
      AppendsAtOnce(storage, front);
      RunMany(storage, tasks, log, logsInMemory, written, taken);
      QueueLeads();
      LastAppend(storage, tasks, log, written, taken);
      EntriesEnd(front);
      IsLastWritten(storage, tasks, taken, toAppend);
      BoundGrows(written, front, 0);
      assert front[..0] == [];
    }

    lemma QueueLeads()
      requires HeldOk(storage, tasks, log, logsInMemory)
      ensures Leads(storage, tasks, log)
    {
    }

    lemma FlushTracks()
      requires Sound() && LastIdKnown() && 0 < taken
      ensures Tracks(tasks[taken..], log, Bound(written, tasks[..taken]), dropped)
      ensures tasks[taken - 1].Append? && tasks[taken - 1].entries != []
      ensures Bound(written, tasks[..taken]) == LastIdOf(tasks[taken - 1].entries)
    {
      hide HeldOk, BesideOk, Tracks, Settled;
      QueueLeads();
      LastAppend(storage, tasks, log, written, taken);
      TracksMany(tasks, log, written, dropped, taken);
      LastIsLargest(tasks, log, written, dropped, taken);
    }

    /** Collects the next append, after writing what has been collected when that is much already. */
    method Take(full: bool)
      requires Sound() && running && taken < |tasks| && tasks[taken].Append?
      modifies this`storage, this`tasks, this`taken, this`lastId, this`written
      ensures Sound() && (old(Valid()) ==> Valid()) && (old(LastIdKnown()) ==> LastIdKnown())
      ensures taken == (if full then 1 else old(taken) + 1)
      ensures View() == Next(old(View()), Disk(if full then old(taken) else 0))
    {
      hide HeldOk, ReadOk, BesideOk, Settled, Tracks;
      NothingRun(View());
      if full {
        Flush();
      }
      taken := taken + 1;
    }

    /** Runs the next task that is no append. The answer to a question for the last id is the id of the last entry on
        disk, if there is one, as long as the id carried along was. */
    method RunTask() returns (answer: LogId)
      requires Sound() && running && taken == 0 && tasks != [] && !tasks[0].Append?
      modifies this`storage, this`tasks, this`lastId, this`written
      ensures Sound() && (old(Valid()) ==> Valid()) && (old(LastIdKnown()) ==> LastIdKnown())
      ensures View() == Next(old(View()), Disk(1))
      ensures old(LastIdCarried()) ==> LastIdCarried()
      ensures old(tasks)[0].LastLogId? && old(LastIdCarried()) && storage.entries != [] ==> answer == LastIdOf(storage.entries)
    {
      hide HeldOk, ReadOk, BesideOk, Apply, CutsFollowed, Tracks;
      var t := tasks[0];
      RunFacts();
      answer := if t.TruncateSuffix? then LogId(t.index, t.term) else lastId;
      storage, tasks, lastId, written := Apply(storage, t), tasks[1..], answer, Bound(written, tasks[..1]);
    }

    lemma RunFacts()
      requires Sound() && taken == 0 && tasks != [] && !tasks[0].Append?
      ensures Replay(storage, tasks[..1]) == Apply(storage, tasks[0])
      ensures HeldOk(Apply(storage, tasks[0]), tasks[1..], log, logsInMemory)
      ensures ReadOk(storage, tasks, log, logsInMemory, written) ==>
                ReadOk(Apply(storage, tasks[0]), tasks[1..], log, logsInMemory, Bound(written, tasks[..1]))
      ensures Bound(written, tasks[..1]).AtLeast(written)
      ensures tasks[0].TruncateSuffix? ==> Bound(written, tasks[..1]).AtLeast(LogId(tasks[0].index, tasks[0].term))
      ensures IsLast(storage, tasks, lastId) ==>
                IsLast(Apply(storage, tasks[0]), tasks[1..],
                       if tasks[0].TruncateSuffix? then LogId(tasks[0].index, tasks[0].term) else lastId)
      ensures LastIdKnown() ==>
                && Tracks(tasks[1..], log, Bound(written, tasks[..1]), dropped) && CutsFollowed(tasks[1..])
                && Bound(written, tasks[..1]) == written && IsLast(Apply(storage, tasks[0]), tasks[1..], written)
      ensures tasks[0].LastLogId? ==> Apply(storage, tasks[0]) == storage
    {
      assert HeldOk(storage, tasks, log, logsInMemory) && CutNamed(storage, tasks, 0);
      hide HeldOk, ReadOk, BesideOk, Tracks, CutsFollowed, IsLast, CutNamed;
      RunLog(storage, tasks, log, logsInMemory, written);
      assert tasks[..1] == [] + [tasks[0]];
      BoundOneMore(written, [], tasks[0]);
      assert tasks[..1][..0] == [];
      if IsLast(storage, tasks, lastId) {
        IsLastRun(storage, tasks, lastId);
      }
      if LastIdKnown() {
        TracksShift(tasks, log, written, dropped);
        IsLastLargest(storage, tasks, written);
        FirstTask();
      }
    }

    lemma FirstTask()
      requires Tracks(tasks, log, written, dropped) && tasks != [] && !tasks[0].Append?
      ensures Mark(written, tasks[0]) == written
    {
      assert TaskIdOk(tasks, written, 0);
      assert tasks[..0] == [];
    }

    /** The end of a batch: everything collected is written and the last id is published, unless it went back. The
        published id is the last one on disk exactly when it did not go back, or nothing can ask for it. */
    method EndBatch()
      requires Sound() && running
      modifies this`storage, this`tasks, this`taken, this`lastId, this`written, this`diskId, this`logsInMemory, this`running
      ensures Sound() && !running && taken == 0 && (old(Valid()) ==> Valid()) && (old(LastIdKnown()) ==> LastIdKnown())
      ensures Possible(Next(old(View()), Disk(old(taken))), DiskId(lastId))
      ensures View() == Next(Next(old(View()), Disk(old(taken))), DiskId(lastId))
      ensures old(taken) > 0 || old(LastIdCarried()) ==>
                LastIdCarried() &&
                (IsLast(storage, tasks, diskId) <==>
                   lastId.AtLeast(old(diskId)) || storage.entries == [] || AppendNext(tasks))
    {
      hide HeldOk, ReadOk, BesideOk, TakenOk, CutsFollowed, Tracks;
      Flush();
      SetDiskId(lastId);
      running := false;
    }

    /** Asks for the last id on disk. When the log ends with the snapshot, the snapshot's id is the answer; otherwise the
        disk thread answers once it gets there. */
    method AskLastLogId() returns (answer: Option<LogId>)
      requires Sound()
      modifies this`tasks
      ensures Sound() && (old(Valid()) ==> Valid()) && (old(LastIdKnown()) ==> LastIdKnown())
      ensures answer.Some? <==> log.Last() == lastSnapshotId.index
      ensures answer.Some? && Ready() ==> answer.value == IdBefore(log, dropped, log.Last() + 1)
      ensures tasks == if answer.Some? then old(tasks) else old(tasks) + [LastLogId]
    {
      hide HeldOk, ReadOk, TakenOk, IsLast, CutsFollowed, Tracks;
      if lastLogIndex == lastSnapshotId.index {
        SnapshotIsLast();
        return Some(lastSnapshotId);
      }
      answer := None;
      QuietLog(storage, tasks, log, logsInMemory, written, LastLogId);
      TakenLonger(tasks, taken, LastLogId);
      if LastIdKnown() {
        NoCut(LastLogId);
        TracksQuiet(tasks, log, written, dropped, LastLogId, dropped);
        SettledLonger(storage, tasks, lastId, written, diskId, running, [LastLogId]);
      }
      tasks := tasks + [LastLogId];
    }

    lemma SnapshotIsLast()
      requires Sound() && Ready() && log.Last() == lastSnapshotId.index
      ensures lastSnapshotId == IdBefore(log, dropped, log.Last() + 1)
    {
    }

    lemma NoCut(t: Task)
      requires !t.TruncateSuffix?
      ensures CutsFollowed([t])
    {
    }

    // ---- configurations

    lemma SnapshotConf()
      requires Sound() && Ready()
      ensures log.first - 1 <= lastSnapshotId.index <= log.Last()
      ensures configManager.snapshot.conf == ReplayConf(before, log.entries[..lastSnapshotId.index + 1 - log.first])
    {
      hide HeldOk;
      assert log.Valid() by { HeldIsValid(); }
    }

    lemma HeldIsValid()
      requires HeldOk(storage, tasks, log, logsInMemory)
      ensures log.Valid()
    {
    }

    /** The configuration in force at an index, from the snapshot on: what replaying the log gives. */
    method GetConfiguration(index: nat) returns (conf: ConfigurationEntry)
      requires Sound() && Ready() && lastSnapshotId.index <= index <= log.Last()
      ensures conf.conf == ReplayConf(before, log.entries[..index + 1 - log.first])
    {
      hide HeldOk, BesideOk, ConfEntries, ReplayConf, CountBelow, Consistent, StartOk, TermsSet, Store.Valid;
      LogFacts();
      SnapshotConf();
      LookupIsReplay(log, before, configManager.snapshot, index);
      conf := configManager.Get(index);
    }
  }

  /** All of a loaded log is in the storage. */
  lemma LoadedIsOk(loaded: Store, written: LogId)
    requires loaded.Valid()
    ensures HeldOk(loaded, [], loaded, []) && ReadOk(loaded, [], loaded, [], written) && TakenOk([], 0)
  {
    assert Replay(loaded, [][..0]) == loaded;
  }

  /** With growing ids, the last id of a loaded log is known. */
  lemma LoadedTracks(loaded: Store, dropped: LogId, id: LogId)
    requires loaded.Valid() && id == LogId(loaded.Last(), loaded.Term(loaded.Last())) && Growing(loaded, dropped, id)
    ensures Tracks([], loaded, id, dropped) && Settled(loaded, [], id, id, id, false)
  {
  }

  lemma LoadedBeside(loaded: Store, dropped: LogId, conf: Config)
    requires loaded.Valid() && TermsSet(loaded) && dropped.index == loaded.first - 1
    requires if dropped.index == 0 then dropped == NoId && conf == Config({}, {}) else dropped.term > 0
    ensures BesideOk(loaded, ConfEntries(loaded.entries), ConfigurationEntry(NoId, Config({}, {})), NoId, NoId, dropped, conf)
  {
    ConfEntriesWithin(loaded);
  }

  /** A node that starts with a log behind index 1 and a snapshot inside it passes its check, but no longer knows the
      term of the entry right before the log. */
  method StartForgetful(config: ConfigurationManager, loaded: Store, ghost dropped: LogId, ghost conf: Config,
                        meta: ConfigurationEntry) returns (m: LogManager, ok: bool, term: nat)
    requires loaded.Valid() && TermsSet(loaded) && config.configurations == ConfEntries(loaded.entries)
    requires config.snapshot == ConfigurationEntry(NoId, Config({}, {}))
    requires loaded.first > 1 && dropped.index == loaded.first - 1 && dropped.term > 0
    requires loaded.Has(meta.id.index) && loaded.Get(meta.id.index).id == meta.id
    requires meta.conf == ReplayConf(conf, loaded.entries[..meta.id.index + 1 - loaded.first])
    modifies config
    ensures ok && m.Valid() && m.log == loaded && m.dropped == dropped && term == 0 < dropped.term
  {
    hide HeldOk, ReadOk, BesideOk, Tracks, Settled, ConfEntries, ReplayConf, Store.TruncatePrefix, Growing;
    m := new LogManager(config, loaded, dropped, conf);
    var _ := m.SetSnapshot(meta);
    ok := m.CheckConsistency();
    term := m.UnsafeGetTerm(loaded.first - 1);
  }

  // ---- when ids do not grow

  /** An entry of term 2 on its way to the disk. */
  method EntryQueued() returns (m: LogManager)
    ensures fresh(m) && fresh(m.configManager) && m.Valid() && m.log == Store(1, [LogEntry(LogId(1, 2), Data(0))])
    ensures m.storage == Store(1, []) && m.tasks == [Append([LogEntry(LogId(1, 2), Data(0))])] && m.diskId == NoId
    ensures m.taken == 0 && !m.running && m.lastSnapshotId == m.virtualFirstLogId == m.appliedId == NoId
  {
    hide HeldOk, ReadOk, BesideOk, TakenOk, Tracks, Settled, Queued, Extended, Added, Above, Growing, Numbered;
    var config := new ConfigurationManager();
    m := new LogManager(config, Store(1, []), NoId, Config({}, {}));
    var entry := LogEntry(LogId(0, 2), Data(0));
    FirstQueued(entry);
    var _ := m.AppendEntries([entry]);
    NothingBefore(m.tasks);
  }

  lemma NothingBefore(tasks: seq<Task>)
    ensures |tasks| == 1 ==> Bound(NoId, tasks[..|tasks| - 1]) == NoId
  {
  }

  /** An entry of term 2, in memory and on disk. */
  method EntryOnDisk() returns (m: LogManager)
    ensures fresh(m) && fresh(m.configManager) && m.Valid() && m.log == m.storage == Store(1, [LogEntry(LogId(1, 2), Data(0))])
    ensures m.tasks == [] && m.diskId == LogId(1, 2)
    ensures m.lastSnapshotId == m.virtualFirstLogId == m.appliedId == NoId
  {
    hide HeldOk, ReadOk, BesideOk, TakenOk, Tracks, Settled;
    m := EntryQueued();
    m.StartBatch();
    NothingRun(m.View());
    m.Take(false);
    FirstRun(m.View(), LogEntry(LogId(1, 2), Data(0)));
    m.EndBatch();
  }

  lemma FirstQueued(entry: LogEntry)
    requires entry.id == LogId(0, 2)
    ensures var now := [entry.(id := LogId(1, 2))];
            && Queued(Store(1, []), NoId, NoId, [entry]) == [Append(now)]
            && Extended(Store(1, []), NoId, NoId, [entry]) == Store(1, now)
            && Above(NoId, Added(Store(1, []), NoId, NoId, [entry]))
  {
    assert Renumbered([entry], 1) == [entry.(id := LogId(1, 2))];
    assert CutTasks(Store(1, []), NoId, NoId, [entry]) == [];
  }

  lemma FirstRun(c: Cached, entry: LogEntry)
    requires c.storage == Store(1, []) && c.tasks == [Append([entry])]
    ensures Next(c, Disk(1)).storage == Store(1, [entry]) && Next(c, Disk(1)).tasks == []
  {
    var t := c.tasks[0];
    assert c.tasks[..1] == c.tasks && c.tasks[..0] == [] && c.tasks[1..] == [];
    assert Replay(c.storage, c.tasks) == Apply(c.storage, t) == Store(1, [entry]);
  }

  /** A leader replaces an entry of term 2 that is on disk by one of term 1. The new entry counts as written at once,
      leaves the memory when it is applied, and is read from the storage, which still has the old one. */
  method SmallerTermIsLost() returns (m: LogManager, found: Option<LogEntry>)
    ensures m.Sound() && m.log.Has(1) && m.log.Get(1).id == LogId(1, 1)
    ensures found.Some? && found.value.id == LogId(1, 2) && found.value != m.log.Get(1)
  {
    hide HeldOk, ReadOk, BesideOk, TakenOk, Tracks, Settled, Extended, FollowerOutcome, Queued, Added, Next, Lookup, Possible,
         Consistent, StartOk, TermsSet, ConfEntries, Suffix;
    m := EntryOnDisk();
    var entry := LogEntry(LogId(1, 1), Data(1));
    SmallerReplaces(m.log, entry);
    var _ := m.AppendEntries([entry]);
    m.LogFacts();
    AppliedIsCleared(m.View(), entry);
    m.SetAppliedId(entry.id);
    found := m.GetEntry(1);
  }

  lemma SmallerReplaces(log: Store, entry: LogEntry)
    requires log == Store(1, [LogEntry(LogId(1, 2), Data(0))]) && entry.id == LogId(1, 1)
    ensures FollowerOutcome(log, NoId, NoId, NoId, [entry]) == Appended
    ensures Extended(log, NoId, NoId, [entry]) == Store(1, [entry])
  {
    assert Agreeing(log, NoId, NoId, [entry]) == 0;
  }

  /** An entry whose id is not above the disk id leaves the memory when it is applied. */
  lemma AppliedIsCleared(c: Cached, entry: LogEntry)
    requires c.log == Store(1, [entry]) && Suffix(c.mem, c.log) && c.appliedId == NoId && c.diskId.AtLeast(entry.id)
    ensures Possible(c, AppliedId(entry.id)) && Lookup(Next(c, AppliedId(entry.id)), 1) == c.storage.Read(1)
  {
    hide Uncleared, Suffix;
    AllIsCleared(c.mem, c.log, entry);
    var d := c.(appliedId := entry.id, mem := []);
    assert Next(c, AppliedId(entry.id)) == d;
    assert Lookup(d, 1) == d.storage.Read(1);
  }

  lemma AllIsCleared(mem: seq<LogEntry>, log: Store, entry: LogEntry)
    requires log == Store(1, [entry]) && Suffix(mem, log)
    ensures Uncleared(mem, entry.id) == []
  {
    hide Uncleared;
    var n := UnclearedIs(mem, entry.id);
    assert |mem[n..]| == 0;
  }
}
