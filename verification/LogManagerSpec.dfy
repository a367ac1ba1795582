/** The log of the log manager on values: what appending, cutting, dropping, writing and evicting do to the log,
    its memory, its disk queue and what lies beside it. */
module LogManagerSpec {
  import opened Types
  import opened LogStorages
  import opened DiskQueues
  import opened DiskIds
  import opened ConfigurationManagers

  const NoId := LogId(0, 0)

  /** The memory holds the end of the log. */
  ghost predicate Suffix(mem: seq<LogEntry>, log: Store) {
    |mem| <= |log.entries| && mem == log.entries[|log.entries| - |mem|..]
  }

  /** The entries are numbered from `index` on. */
  ghost predicate Numbered(es: seq<LogEntry>, index: nat) {
    forall k {:trigger es[k]} | 0 <= k < |es| :: es[k].id.index == index + k
  }

  /** The snapshot lies within the log or right before it, and is the log's. */
  ghost predicate Consistent(log: Store, snapshot: LogId) {
    && (snapshot.index == 0 ==> snapshot == NoId)
    && (snapshot.index > 0 ==> log.first - 1 <= snapshot.index <= log.Last() && snapshot.term > 0)
    && (log.Has(snapshot.index) ==> log.Get(snapshot.index).id.term == snapshot.term)
  }

  /** Nothing is missing between the snapshot and the log: only a log that was loaded and still waits for its snapshot
      can lack this. */
  predicate Complete(log: Store, snapshot: LogId) {
    snapshot.index > 0 || log.first == 1
  }

  /** No term of a log is 0, which means "no term". */
  ghost predicate TermsSet(log: Store) {
    forall k {:trigger log.entries[k]} | 0 <= k < |log.entries| :: log.entries[k].id.term > 0
  }

  /** `dropped` is the id of the entry right before the log. The virtual first entry is that one or unknown, and so is
      a snapshot that lies right before the log. */
  ghost predicate StartOk(log: Store, virtual: LogId, snapshot: LogId, dropped: LogId) {
    && dropped.index == log.first - 1 && (if dropped.index == 0 then dropped == NoId else dropped.term > 0)
    && (virtual == NoId || virtual == dropped) && virtual.index <= snapshot.index
    && (snapshot.index == log.first - 1 ==> snapshot == dropped)
  }

  /** The index lists the configuration entries of the log, and the snapshot's configuration is the one in force
      at its index; `before` is in force where the log starts. */
  ghost predicate IndexOk(cs: seq<ConfigurationEntry>, snapshot: ConfigurationEntry, log: Store, before: Config) {
    && cs == ConfEntries(log.entries)
    && (snapshot.id.index >= log.first - 1 ==>
          && snapshot.id.index <= log.Last()
          && snapshot.conf == ReplayConf(before, log.entries[..snapshot.id.index + 1 - log.first]))
  }

  /** The answer to the question for a term: the virtual first entry and the snapshot come before the log. */
  function TermOf(log: Store, virtual: LogId, snapshot: LogId, index: nat): nat {
    if index == 0 then 0
    else if index == virtual.index then virtual.term
    else if index == snapshot.index then snapshot.term
    else if log.Has(index) then log.Get(index).id.term
    else 0
  }

  /** Which terms are told truly. Every index of the log gets its own term; the index right before the log gets the
      term of the entry that was there exactly when the log starts at 1, or the virtual first entry or the snapshot
      lies there; every other index gets 0. */
  lemma TermIsTrue(log: Store, virtual: LogId, snapshot: LogId, dropped: LogId, index: nat)
    requires log.Valid() && Consistent(log, snapshot) && StartOk(log, virtual, snapshot, dropped)
    ensures var term := TermOf(log, virtual, snapshot, index);
            && (log.Has(index) ==> term == log.Get(index).id.term)
            && (index == log.first - 1 ==>
                  (term == dropped.term <==> log.first == 1 || virtual.index == index || snapshot.index == index))
            && (index < log.first - 1 || index > log.Last() ==> term == 0)
  {
  }

  /** A loaded log whose snapshot lies inside it has forgotten the term of the entry right before it. */
  lemma TermIsForgotten(log: Store, snapshot: LogId, dropped: LogId)
    requires log.Valid() && log.first > 1 && Consistent(log, snapshot) && StartOk(log, NoId, snapshot, dropped)
    requires snapshot.index >= log.first
    ensures TermOf(log, NoId, snapshot, log.first - 1) == 0 < dropped.term
  {
  }

  /** A snapshot newer than the one before never lies below the log. */
  lemma NewSnapshotIsNotBelow(log: Store, snapshot: LogId, index: nat)
    requires Consistent(log, snapshot) && Complete(log, snapshot) && index > snapshot.index
    ensures index >= log.first
  {
  }

  // ---- appending

  /** How many of the entries the log has with the same terms. */
  function Agreeing(log: Store, virtual: LogId, snapshot: LogId, es: seq<LogEntry>): (n: nat)
    ensures n <= |es|
  {
    if es == [] || TermOf(log, virtual, snapshot, es[0].id.index) != es[0].id.term then 0
    else 1 + Agreeing(log, virtual, snapshot, es[1..])
  }

  lemma {:induction false} AgreeingIs(log: Store, virtual: LogId, snapshot: LogId, es: seq<LogEntry>, n: nat)
    requires n <= |es|
    requires forall k | 0 <= k < n :: TermOf(log, virtual, snapshot, es[k].id.index) == es[k].id.term
    requires n < |es| ==> TermOf(log, virtual, snapshot, es[n].id.index) != es[n].id.term
    ensures Agreeing(log, virtual, snapshot, es) == n
  {
    if n > 0 {
      AgreeingIs(log, virtual, snapshot, es[1..], n - 1);
    }
  }

  lemma {:induction false} AgreeingFacts(log: Store, virtual: LogId, snapshot: LogId, es: seq<LogEntry>, index: nat)
    requires Numbered(es, index) && 0 < index <= log.Last() + 1
    requires log.Valid() && snapshot.index <= log.Last() && virtual.index <= log.Last()
    requires forall k {:trigger es[k]} | 0 <= k < |es| :: es[k].id.term > 0
    ensures var n := Agreeing(log, virtual, snapshot, es);
            && index + n <= log.Last() + 1
            && (forall k | 0 <= k < n :: TermOf(log, virtual, snapshot, es[k].id.index) == es[k].id.term)
            && (n < |es| ==> TermOf(log, virtual, snapshot, es[n].id.index) != es[n].id.term)
    decreases |es|
  {
    if es != [] && TermOf(log, virtual, snapshot, es[0].id.index) == es[0].id.term {
      assert forall k | 0 <= k < |es| - 1 :: es[1..][k] == es[k + 1];
      AgreeingFacts(log, virtual, snapshot, es[1..], index + 1);
    }
  }

  /** The log after a follower's request: the old log up to the first conflict, then the rest of the request. */
  function Resolved(log: Store, virtual: LogId, snapshot: LogId, es: seq<LogEntry>): Store {
    var n := Agreeing(log, virtual, snapshot, es);
    if n == |es| then log else log.TruncateSuffix(Types.Max(es[n].id.index, 1) - 1).Append(es[n..])
  }

  function Renumbered(es: seq<LogEntry>, index: nat): (r: seq<LogEntry>)
    ensures |r| == |es| && Numbered(r, index)
    ensures forall k | 0 <= k < |es| :: r[k].payload == es[k].payload && r[k].id.term == es[k].id.term
  {
    seq(|es|, k requires 0 <= k < |es| => es[k].(id := LogId(index + k, es[k].id.term)))
  }

  datatype Outcome = Appended | Gap | AlreadyApplied | Fatal

  /** What becomes of a follower's request: a gap before it, nothing new in it, a conflict with what is applied. */
  function FollowerOutcome(log: Store, virtual: LogId, snapshot: LogId, applied: LogId, es: seq<LogEntry>): Outcome
    requires es != []
  {
    var n := Agreeing(log, virtual, snapshot, es);
    if es[0].id.index > log.Last() + 1 then Gap
    else if es[|es| - 1].id.index <= applied.index then AlreadyApplied
    else if es[0].id.index <= log.Last() && n < |es| && es[n].id.index <= log.Last() && es[n].id.index <= applied.index then Fatal
    else Appended
  }

  /** What becomes of a follower's request, told by its indices and by the terms the log has for them. */
  lemma OutcomeExactly(log: Store, virtual: LogId, snapshot: LogId, applied: LogId, es: seq<LogEntry>, index: nat)
    requires es != [] && Numbered(es, index) && index > 0
    requires log.Valid() && snapshot.index <= log.Last() && virtual.index <= log.Last()
    requires forall k {:trigger es[k]} | 0 <= k < |es| :: es[k].id.term > 0
    ensures var outcome, last := FollowerOutcome(log, virtual, snapshot, applied, es), index + |es| - 1;
            && (outcome == Gap <==> index > log.Last() + 1)
            && (outcome == AlreadyApplied <==> index <= log.Last() + 1 && last <= applied.index)
            && (outcome == Fatal <==>
                  && index <= log.Last() + 1 && applied.index < last
                  && exists k {:trigger es[k]} | 0 <= k < |es| ::
                       && es[k].id.index <= log.Last() && es[k].id.index <= applied.index
                       && TermOf(log, virtual, snapshot, es[k].id.index) != es[k].id.term)
  {
    hide Agreeing, TermOf;
    if index <= log.Last() + 1 {
      AgreeingFacts(log, virtual, snapshot, es, index);
    }
  }

  /** What can be read after a follower's request: up to the first conflict what was there, from it on the request and
      nothing behind it; without a conflict nothing changes. */
  lemma ResolvedReads(log: Store, virtual: LogId, snapshot: LogId, es: seq<LogEntry>, index: nat, j: int)
    requires es != [] && Numbered(es, index) && 0 < index <= log.Last() + 1
    requires log.Valid() && snapshot.index <= log.Last() && virtual.index <= log.Last()
    requires forall k {:trigger es[k]} | 0 <= k < |es| :: es[k].id.term > 0
    requires index + Agreeing(log, virtual, snapshot, es) >= log.first
    ensures var n := Agreeing(log, virtual, snapshot, es);
            Resolved(log, virtual, snapshot, es).Read(j) ==
              if n == |es| || j < index + n then log.Read(j)
              else if j < index + |es| then Some(es[j - index]) else None
  {
    hide *;
    ResolvedForm(log, virtual, snapshot, es, index);
    var n := Agreeing(log, virtual, snapshot, es);
    if n < |es| {
      var rest := es[n..];
      CutAppendReads(log, index + n - 1, rest, j);
      assert index + n <= j < index + |es| ==> rest[j - (index + n - 1) - 1] == es[j - index];
    }
  }

  lemma ResolvedForm(log: Store, virtual: LogId, snapshot: LogId, es: seq<LogEntry>, index: nat)
    requires es != [] && Numbered(es, index) && 0 < index <= log.Last() + 1
    requires log.Valid() && snapshot.index <= log.Last() && virtual.index <= log.Last()
    requires forall k {:trigger es[k]} | 0 <= k < |es| :: es[k].id.term > 0
    ensures var n, r := Agreeing(log, virtual, snapshot, es), Resolved(log, virtual, snapshot, es);
            && index + n <= log.Last() + 1
            && r == if n == |es| then log else log.TruncateSuffix(index + n - 1).Append(es[n..])
  {
    hide Agreeing, TermOf, Store.Valid, Store.TruncateSuffix, Store.Append;
    AgreeingFacts(log, virtual, snapshot, es, index);
  }

  lemma CutAppendReads(log: Store, kept: nat, rest: seq<LogEntry>, j: int)
    requires log.first - 1 <= kept <= log.Last()
    ensures log.TruncateSuffix(kept).Append(rest).Read(j) ==
              if j <= kept then log.Read(j) else if j <= kept + |rest| then Some(rest[j - kept - 1]) else None
  {
    hide Store.Read, Store.TruncateSuffix, Store.Append;
    CutEnds(log, kept);
    ChangedReads(log, [], kept, j);
    ChangedReads(log.TruncateSuffix(kept), rest, 0, j);
  }

  /** The entries of a request that get appended: a leader's entries are numbered, a follower's lose what is there. */
  function Added(log: Store, virtual: LogId, snapshot: LogId, es: seq<LogEntry>): seq<LogEntry>
    requires es != []
  {
    if es[0].id.index == 0 then Renumbered(es, log.Last() + 1) else es[Agreeing(log, virtual, snapshot, es)..]
  }

  /** The log after a request that is appended. */
  function Extended(log: Store, virtual: LogId, snapshot: LogId, es: seq<LogEntry>): Store
    requires es != []
  {
    if es[0].id.index == 0 then log.Append(Renumbered(es, log.Last() + 1)) else Resolved(log, virtual, snapshot, es)
  }

  /** The log is cut for a request. */
  predicate Cuts(log: Store, virtual: LogId, snapshot: LogId, es: seq<LogEntry>)
    requires es != []
  {
    var n := Agreeing(log, virtual, snapshot, es);
    0 < es[0].id.index <= log.Last() && n < |es| && 0 < es[n].id.index <= log.Last()
  }

  /** The cut that a request queues: it names the entry it keeps last. */
  function CutTasks(log: Store, virtual: LogId, snapshot: LogId, es: seq<LogEntry>): seq<Task>
    requires es != []
  {
    if Cuts(log, virtual, snapshot, es) then
      var kept := es[Agreeing(log, virtual, snapshot, es)].id.index - 1;
      [TruncateSuffix(kept, TermOf(log, virtual, snapshot, kept))]
    else []
  }

  /** What is left of the log when it has been cut for a request. */
  function CutFor(log: Store, virtual: LogId, snapshot: LogId, es: seq<LogEntry>): Store
    requires es != []
  {
    if Cuts(log, virtual, snapshot, es) then
      log.TruncateSuffix(es[Agreeing(log, virtual, snapshot, es)].id.index - 1)
    else log
  }

  /** The disk tasks of a request that is appended. */
  function Queued(log: Store, virtual: LogId, snapshot: LogId, es: seq<LogEntry>): seq<Task>
    requires es != []
  {
    var added := Added(log, virtual, snapshot, es);
    CutTasks(log, virtual, snapshot, es) + [if added == [] then Done else Append(added)]
  }

  /** Cutting at the first conflict, if it lies within the log, leaves room for the rest of the request. */
  lemma ResolvedIs(log: Store, virtual: LogId, snapshot: LogId, es: seq<LogEntry>, index: nat)
    requires es != [] && Numbered(es, index) && 0 < index <= log.Last() + 1
    requires log.Valid() && snapshot.index <= log.Last() && virtual.index <= log.Last()
    requires forall k {:trigger es[k]} | 0 <= k < |es| :: es[k].id.term > 0
    ensures var n, cut := Agreeing(log, virtual, snapshot, es), CutFor(log, virtual, snapshot, es);
            && (Cuts(log, virtual, snapshot, es) ==> log.first <= es[n].id.index)
            ==> cut.Append(es[n..]) == Resolved(log, virtual, snapshot, es) && Follows(cut, es[n..])
    ensures index == log.Last() + 1 ==> Agreeing(log, virtual, snapshot, es) == 0 && !Cuts(log, virtual, snapshot, es)
  {
    hide Agreeing, TermOf, Store.Valid;
    AgreeingFacts(log, virtual, snapshot, es, index);
    var n, cut := Agreeing(log, virtual, snapshot, es), CutFor(log, virtual, snapshot, es);
    if n == |es| {
      assert es[n..] == [] && log.Append([]) == log;
    } else if !Cuts(log, virtual, snapshot, es) || log.first <= es[n].id.index {
      assert es[n].id.index == index + n <= log.Last() + 1;
      CutEnds(log, index + n - 1);
      RestFollows(cut, es, index, n);
    }
  }

  lemma CutEnds(log: Store, kept: nat)
    requires kept <= log.Last()
    ensures kept == log.Last() ==> log.TruncateSuffix(kept) == log
    ensures log.first - 1 <= kept ==> log.TruncateSuffix(kept).Last() == kept
  {
    if kept == log.Last() && log.first <= kept + 1 {
      assert log.entries[..|log.entries|] == log.entries;
    }
  }

  lemma RestFollows(cut: Store, es: seq<LogEntry>, index: nat, n: nat)
    requires Numbered(es, index) && n <= |es| && cut.Last() + 1 == index + n
    ensures Follows(cut, es[n..])
  {
    assert forall k | 0 <= k < |es| - n :: es[n..][k] == es[n + k];
  }

  lemma SuffixOneMore(mem: seq<LogEntry>, log: Store, es: seq<LogEntry>)
    requires Suffix(mem, log)
    ensures Suffix(mem + es, log.Append(es))
  {
    var n := |log.entries| - |mem|;
    assert (log.entries + es)[n..] == log.entries[n..] + es;
  }

  lemma IndexOneMore(cs: seq<ConfigurationEntry>, snapshot: ConfigurationEntry, log: Store, before: Config, es: seq<LogEntry>)
    requires IndexOk(cs, snapshot, log, before)
    ensures IndexOk(cs + ConfEntries(es), snapshot, log.Append(es), before)
  {
    ConfEntriesConcat(log.entries, es);
    var n := snapshot.id.index + 1 - log.first;
    if n >= 0 {
      assert (log.entries + es)[..n] == log.entries[..n];
    }
  }

  lemma IndexCut(cs: seq<ConfigurationEntry>, snapshot: ConfigurationEntry, log: Store, before: Config, index: nat)
    requires log.Valid() && IndexOk(cs, snapshot, log, before) && snapshot.id.index <= index <= log.Last() && log.first - 1 <= index
    ensures IndexOk(cs[..CountBelow(cs, index + 1)], snapshot, log.TruncateSuffix(index), before)
  {
    CountIsPrefix(log, index + 1);
    var n, m := index + 1 - log.first, snapshot.id.index + 1 - log.first;
    if m >= 0 {
      assert log.entries[..n][..m] == log.entries[..m];
    }
  }

  /** What is in force behind the dropped part is in force before the rest. */
  lemma IndexDrop(cs: seq<ConfigurationEntry>, snapshot: ConfigurationEntry, log: Store, before: Config, index: nat)
    requires log.Valid() && IndexOk(cs, snapshot, log, before) && log.first <= index <= snapshot.id.index + 1
    ensures index <= log.Last() + 1
    ensures IndexOk(cs[CountBelow(cs, index)..], snapshot, log.TruncatePrefix(index),
                    ReplayConf(before, log.entries[..index - log.first]))
  {
    hide ConfEntries, CountBelow, ReplayConf;
    CountIsPrefix(log, index);
    var n, m := index - log.first, snapshot.id.index + 1 - log.first;
    DroppedParts(log, n);
    assert log.entries[..m] == log.entries[..n] + log.entries[n..m];
    ReplayConfConcat(before, log.entries[..n], log.entries[n..m]);
    assert log.entries[n..][..m - n] == log.entries[n..m];
  }

  lemma DroppedParts(log: Store, n: nat)
    requires n <= |log.entries|
    ensures log.TruncatePrefix(log.first + n) == Store(log.first + n, log.entries[n..])
  {
  }

  // ---- queue and memory

  function Clamp(n: int, max: nat): nat {
    if n < 0 then 0 else if n > max then max else n
  }

  /** The first index that the memory holds. */
  function MemStart(log: Store, mem: seq<LogEntry>): nat {
    if log.Last() + 1 < |mem| then 0 else log.Last() + 1 - |mem|
  }

  /** The disk tasks lead to the log, their cuts name what they keep, and the memory holds the end of the log. */
  ghost predicate HeldOk(storage: Store, tasks: seq<Task>, log: Store, mem: seq<LogEntry>) {
    log.Valid() && Leads(storage, tasks, log) && Named(storage, tasks) && Suffix(mem, log)
  }

  /** What has left the memory can be read from the storage, now and while the disk works. */
  ghost predicate ReadOk(storage: Store, tasks: seq<Task>, log: Store, mem: seq<LogEntry>, written: LogId) {
    Readable(storage, tasks, log, MemStart(log, mem), written)
  }

  ghost predicate LogOk(storage: Store, tasks: seq<Task>, log: Store, mem: seq<LogEntry>, written: LogId) {
    HeldOk(storage, tasks, log, mem) && ReadOk(storage, tasks, log, mem, written)
  }

  lemma MemoryNumbered(storage: Store, tasks: seq<Task>, log: Store, mem: seq<LogEntry>)
    requires HeldOk(storage, tasks, log, mem)
    ensures Numbered(mem, MemStart(log, mem))
  {
    assert forall k | 0 <= k < |mem| :: mem[k] == log.entries[|log.entries| - |mem| + k];
  }

  /** Cutting the log: the memory drops what lies behind the cut. */
  lemma CutLog(storage: Store, tasks: seq<Task>, log: Store, mem: seq<LogEntry>, written: LogId, t: Task)
    requires LogOk(storage, tasks, log, mem, written) && t.TruncateSuffix? && log.first - 1 <= t.index < log.Last()
    requires log.Has(t.index) ==> log.Get(t.index).id.term == t.term
    ensures LogOk(storage, tasks + [t], Apply(log, t), mem[..Clamp(t.index + 1 - MemStart(log, mem), |mem|)], written)
  {
    hide Leads, Named, Readable;
    var after, kept := Apply(log, t), mem[..Clamp(t.index + 1 - MemStart(log, mem), |mem|)];
    LeadsOneMore(storage, tasks, log, t);
    NamedOneMore(storage, tasks, log, t);
    FitsValid(log, t);
    CutSuffix(log, mem, t.index);
    ReadableOneMore(storage, tasks, log, MemStart(log, mem), written, t);
    ReadableRange(storage, tasks + [t], after, MemStart(log, mem), MemStart(after, kept), written);
  }

  lemma CutSuffix(log: Store, mem: seq<LogEntry>, index: nat)
    requires Suffix(mem, log) && log.first - 1 <= index <= log.Last() && log.first > 0
    ensures var kept := mem[..Clamp(index + 1 - MemStart(log, mem), |mem|)];
            Suffix(kept, log.TruncateSuffix(index)) && MemStart(log.TruncateSuffix(index), kept) <= MemStart(log, mem)
  {
  }

  lemma StartsAbove(log: Store)
    requires log.Valid()
    ensures log.first > 0
  {
  }

  /** Dropping the beginning of the log, or all of it. */
  lemma DropLog(storage: Store, tasks: seq<Task>, log: Store, mem: seq<LogEntry>, written: LogId, t: Task)
    requires HeldOk(storage, tasks, log, mem) && t.TruncatePrefix? && Fits(log, t)
    ensures var kept := mem[Clamp(t.index - MemStart(log, mem), |mem|)..];
            && HeldOk(storage, tasks + [t], Apply(log, t), kept)
            && (ReadOk(storage, tasks, log, mem, written) ==> ReadOk(storage, tasks + [t], Apply(log, t), kept, written))
  {
    hide Leads, Named, Readable, Suffix, Clamp, MemStart, Store.Valid, Store.TruncatePrefix;
    StartsAbove(log);
    LeadsOneMore(storage, tasks, log, t);
    NamedOneMore(storage, tasks, log, t);
    FitsValid(log, t);
    DropSuffix(log, mem, t.index);
    if ReadOk(storage, tasks, log, mem, written) {
      DropReadable(storage, tasks, log, mem, written, t);
    }
  }

  lemma DropReadable(storage: Store, tasks: seq<Task>, log: Store, mem: seq<LogEntry>, written: LogId, t: Task)
    requires Leads(storage, tasks, log) && Suffix(mem, log) && log.first > 0 && t.TruncatePrefix? && Fits(log, t)
    requires ReadOk(storage, tasks, log, mem, written)
    ensures ReadOk(storage, tasks + [t], Apply(log, t), mem[Clamp(t.index - MemStart(log, mem), |mem|)..], written)
  {
    hide Leads, Readable;
    var after, kept := Apply(log, t), mem[Clamp(t.index - MemStart(log, mem), |mem|)..];
    if after.entries == [] {
      ReadableEmpty(storage, tasks + [t], after, MemStart(after, kept), written);
    } else {
      DropSuffix(log, mem, t.index);
      ReadableOneMore(storage, tasks, log, MemStart(log, mem), written, t);
      ReadableRange(storage, tasks + [t], after, MemStart(log, mem), MemStart(after, kept), written);
    }
  }

  lemma DropSuffix(log: Store, mem: seq<LogEntry>, index: nat)
    requires Suffix(mem, log) && log.first <= index && log.first > 0
    ensures var kept, after := mem[Clamp(index - MemStart(log, mem), |mem|)..], log.TruncatePrefix(index);
            && Suffix(kept, after)
            && (after.entries != [] ==> MemStart(after, kept) == Types.Max(MemStart(log, mem), index) && after.first >= index)
  {
  }

  /** The first `taken` tasks are appends that the disk thread has collected. */
  ghost predicate TakenOk(tasks: seq<Task>, taken: nat) {
    taken <= |tasks| && forall k | 0 <= k < taken :: tasks[k].Append?
  }

  lemma TakenLonger(tasks: seq<Task>, taken: nat, t: Task)
    requires TakenOk(tasks, taken)
    ensures TakenOk(tasks + [t], taken)
  {
  }

  lemma DroppedEnds(log: Store, index: nat)
    requires log.first <= index
    ensures log.TruncatePrefix(index).first == index
    ensures log.TruncatePrefix(index).Last() == if index > log.Last() then index - 1 else log.Last()
  {
  }

  lemma DroppedAll(log: Store, index: nat)
    requires log.first <= index && (index == log.first || log.Last() < index)
    ensures log.TruncatePrefix(index) == if index == log.first then log else Store(index, [])
  {
  }

  lemma ResetLog(storage: Store, tasks: seq<Task>, log: Store, mem: seq<LogEntry>, written: LogId, t: Task)
    requires HeldOk(storage, tasks, log, mem) && t.Reset? && Fits(log, t)
    ensures LogOk(storage, tasks + [t], Store(t.next, []), [], written)
  {
    hide Named;
    LeadsOneMore(storage, tasks, log, t);
    NamedOneMore(storage, tasks, log, t);
    FitsValid(log, t);
    ReadableEmpty(storage, tasks + [t], Apply(log, t), MemStart(Apply(log, t), []), written);
  }

  /** Appending: the new entries stay in memory. They can be read for good exactly when their ids are above all ids
      that will count as written before them. */
  lemma ExtendLog(storage: Store, tasks: seq<Task>, log: Store, mem: seq<LogEntry>, written: LogId, t: Task)
    requires LogOk(storage, tasks, log, mem, written) && t.Append? && Fits(log, t)
    ensures HeldOk(storage, tasks + [t], Apply(log, t), mem + t.entries)
    ensures ReadOk(storage, tasks + [t], Apply(log, t), mem + t.entries, written) <==> Above(Bound(written, tasks), t.entries)
  {
    hide Leads, Named, Readable, Bound, LogId.AtLeast;
    LeadsOneMore(storage, tasks, log, t);
    NamedOneMore(storage, tasks, log, t);
    FitsValid(log, t);
    SuffixOneMore(mem, log, t.entries);
    ReadableAppend(storage, tasks, log, MemStart(log, mem), written, t);
  }

  /** All ids are above `bound`. */
  ghost predicate Above(bound: LogId, es: seq<LogEntry>) {
    forall k {:trigger es[k]} | 0 <= k < |es| :: Less(bound, es[k].id)
  }

  lemma QuietLog(storage: Store, tasks: seq<Task>, log: Store, mem: seq<LogEntry>, written: LogId, t: Task)
    requires HeldOk(storage, tasks, log, mem) && (t.Done? || t.LastLogId?)
    ensures HeldOk(storage, tasks + [t], log, mem)
    ensures ReadOk(storage, tasks, log, mem, written) ==> ReadOk(storage, tasks + [t], log, mem, written)
  {
    hide Leads, Named, Readable;
    LeadsOneMore(storage, tasks, log, t);
    NamedOneMore(storage, tasks, log, t);
    if ReadOk(storage, tasks, log, mem, written) {
      ReadableOneMore(storage, tasks, log, MemStart(log, mem), written, t);
    }
  }

  /** The disk runs the first task. */
  lemma RunLog(storage: Store, tasks: seq<Task>, log: Store, mem: seq<LogEntry>, written: LogId)
    requires HeldOk(storage, tasks, log, mem) && tasks != []
    ensures Fits(storage, tasks[0]) && storage.Valid() && HeldOk(Apply(storage, tasks[0]), tasks[1..], log, mem)
    ensures ReadOk(storage, tasks, log, mem, written) ==>
              ReadOk(Apply(storage, tasks[0]), tasks[1..], log, mem, Bound(written, tasks[..1]))
  {
    LeadsFacts(storage, tasks, log);
    LeadsShift(storage, tasks, log);
    NamedShift(storage, tasks);
    if ReadOk(storage, tasks, log, mem, written) {
      ReadableShift(storage, tasks, log, MemStart(log, mem), written);
    }
  }

  /** The first `n` entries leave the memory: their ids are not above what has been written. */
  lemma EvictLog(storage: Store, tasks: seq<Task>, log: Store, mem: seq<LogEntry>, written: LogId, n: nat)
    requires HeldOk(storage, tasks, log, mem) && n <= |mem|
    requires forall k | 0 <= k < n :: written.AtLeast(mem[k].id)
    ensures HeldOk(storage, tasks, log, mem[n..])
    ensures ReadOk(storage, tasks, log, mem, written) ==> ReadOk(storage, tasks, log, mem[n..], written)
  {
    hide Readable, Named, Leads, LogId.AtLeast;
    EvictedIds(log, mem, written, n);
    if ReadOk(storage, tasks, log, mem, written) {
      ReadableEvict(storage, tasks, log, MemStart(log, mem), MemStart(log, mem) + n, written);
    }
  }

  lemma EvictedIds(log: Store, mem: seq<LogEntry>, written: LogId, n: nat)
    requires log.Valid() && Suffix(mem, log) && n <= |mem| && forall k | 0 <= k < n :: written.AtLeast(mem[k].id)
    ensures Suffix(mem[n..], log) && MemStart(log, mem[n..]) == MemStart(log, mem) + n
    ensures var start := MemStart(log, mem);
            forall i | start <= i < start + n && log.Has(i) :: !Less(written, log.Get(i).id)
  {
    var start := MemStart(log, mem);
    forall i | start <= i < start + n && log.Has(i)
      ensures !Less(written, log.Get(i).id)
    {
      assert log.Get(i) == mem[i - start];
    }
  }

  // ---- snapshot and index

  ghost predicate BesideOk(log: Store, cs: seq<ConfigurationEntry>, snapshot: ConfigurationEntry, virtual: LogId,
                           applied: LogId, dropped: LogId, before: Config) {
    && Consistent(log, snapshot.id) && snapshot.id.index <= applied.index && TermsSet(log)
    && StartOk(log, virtual, snapshot.id, dropped) && Ascending(cs) && IndexOk(cs, snapshot, log, before)
  }

  lemma CutBeside(log: Store, cs: seq<ConfigurationEntry>, snapshot: ConfigurationEntry, virtual: LogId, applied: LogId,
                  dropped: LogId, before: Config, index: nat)
    requires log.Valid() && BesideOk(log, cs, snapshot, virtual, applied, dropped, before)
    requires Complete(log, snapshot.id) && applied.index <= index <= log.Last()
    ensures log.first - 1 <= index
    ensures BesideOk(log.TruncateSuffix(index), cs[..CountBelow(cs, index + 1)], snapshot, virtual, applied, dropped, before)
  {
    IndexCut(cs, snapshot, log, before, index);
  }

  /** The term that goes with a cut is that of the entry kept last. */
  lemma CutTerm(log: Store, virtual: LogId, snapshot: LogId, applied: LogId, dropped: LogId, index: nat)
    requires log.Valid() && Consistent(log, snapshot) && StartOk(log, virtual, snapshot, dropped) && TermsSet(log)
    requires Complete(log, snapshot) && snapshot.index <= applied.index <= index < log.Last()
    ensures IdBefore(log, dropped, index + 1) == LogId(index, TermOf(log, virtual, snapshot, index))
    ensures index == 0 || TermOf(log, virtual, snapshot, index) > 0
  {
  }

  lemma ExtendBeside(log: Store, cs: seq<ConfigurationEntry>, snapshot: ConfigurationEntry, virtual: LogId, applied: LogId,
                     dropped: LogId, before: Config, es: seq<LogEntry>)
    requires log.Valid() && BesideOk(log, cs, snapshot, virtual, applied, dropped, before) && Follows(log, es)
    requires forall k {:trigger es[k]} | 0 <= k < |es| :: es[k].id.term > 0
    ensures BesideOk(log.Append(es), cs + ConfEntries(es), snapshot, virtual, applied, dropped, before)
  {
    hide Consistent, TermsSet, Ascending, IndexOk, ConfEntries;
    IndexOneMore(cs, snapshot, log, before, es);
    IndexAscends(cs + ConfEntries(es), snapshot, log.Append(es), before, log, es);
    SnapshotWithin(log, snapshot.id);
    ConsistentMore(log, snapshot.id, es);
  }

  lemma IndexAscends(cs: seq<ConfigurationEntry>, snapshot: ConfigurationEntry, after: Store, before: Config, log: Store,
                     es: seq<LogEntry>)
    requires log.Valid() && Follows(log, es) && after == log.Append(es) && IndexOk(cs, snapshot, after, before)
    ensures Ascending(cs)
  {
    hide ConfEntries, ReplayConf;
    AppendedInOrder(log, es);
    ConfEntriesWithin(after);
  }

  lemma SnapshotWithin(log: Store, snapshot: LogId)
    requires log.Valid() && Consistent(log, snapshot)
    ensures log.Has(snapshot.index) || snapshot.index < log.first
  {
  }

  lemma ConsistentMore(log: Store, snapshot: LogId, es: seq<LogEntry>)
    requires Consistent(log, snapshot) && TermsSet(log) && (log.Has(snapshot.index) || snapshot.index < log.first)
    requires forall k {:trigger es[k]} | 0 <= k < |es| :: es[k].id.term > 0
    ensures Consistent(log.Append(es), snapshot) && TermsSet(log.Append(es))
  {
    forall k | 0 <= k < |log.entries + es| ensures (log.entries + es)[k].id.term > 0 {
      if k >= |log.entries| {
        assert (log.entries + es)[k] == es[k - |log.entries|];
      }
    }
  }

  lemma AppendedInOrder(log: Store, es: seq<LogEntry>)
    requires log.Valid() && Follows(log, es)
    ensures log.Append(es).Valid()
  {
    forall k | 0 <= k < |log.entries + es| ensures (log.entries + es)[k].id.index == log.first + k {
      if k >= |log.entries| {
        assert (log.entries + es)[k] == es[k - |log.entries|];
      }
    }
  }

  /** Dropping the log up to the entry `newVirtual`, which must not lie behind the snapshot. */
  lemma DropBeside(log: Store, cs: seq<ConfigurationEntry>, snapshot: ConfigurationEntry, virtual: LogId, applied: LogId,
                   dropped: LogId, before: Config, newVirtual: LogId) returns (newBefore: Config)
    requires log.Valid() && BesideOk(log, cs, snapshot, virtual, applied, dropped, before)
    requires log.first - 1 <= newVirtual.index <= snapshot.id.index && 0 < newVirtual.index
    requires newVirtual == IdBefore(log, dropped, newVirtual.index + 1)
    ensures newVirtual.index <= log.Last()
    ensures newBefore == ReplayConf(before, log.entries[..newVirtual.index + 1 - log.first])
    ensures BesideOk(log.TruncatePrefix(newVirtual.index + 1), cs[CountBelow(cs, newVirtual.index + 1)..], snapshot, newVirtual,
                     applied, newVirtual, newBefore)
  {
    newBefore := ReplayConf(before, log.entries[..newVirtual.index + 1 - log.first]);
    hide ConfEntries, ReplayConf, CountBelow;
    IndexDrop(cs, snapshot, log, before, newVirtual.index + 1);
    hide IndexOk;
    ConsistentDrop(log, virtual, snapshot.id, dropped, newVirtual);
    AscendingTail(cs, CountBelow(cs, newVirtual.index + 1));
  }

  lemma ConsistentDrop(log: Store, virtual: LogId, snapshot: LogId, dropped: LogId, newVirtual: LogId)
    requires log.Valid() && Consistent(log, snapshot) && TermsSet(log) && StartOk(log, virtual, snapshot, dropped)
    requires log.first - 1 <= newVirtual.index <= snapshot.index && 0 < newVirtual.index
    requires newVirtual == IdBefore(log, dropped, newVirtual.index + 1)
    ensures var after := log.TruncatePrefix(newVirtual.index + 1);
            Consistent(after, snapshot) && TermsSet(after) && StartOk(after, newVirtual, snapshot, newVirtual)
  {
    var n := newVirtual.index + 1 - log.first;
    if 0 < n <= |log.entries| {
      assert forall k | 0 <= k < |log.entries| - n :: log.entries[n..][k] == log.entries[n + k];
    }
  }

  lemma AscendingTail(cs: seq<ConfigurationEntry>, n: nat)
    requires Ascending(cs) && n <= |cs|
    ensures Ascending(cs[n..])
  {
  }

  /** A snapshot beyond the log, or right before it: everything up to it is dropped. */
  lemma ReplaceBeside(log: Store, cs: seq<ConfigurationEntry>, meta: ConfigurationEntry, applied: LogId)
    requires log.Valid() && cs == ConfEntries(log.entries) && TermsSet(log) && !log.Has(meta.id.index)
    requires log.first - 1 <= meta.id.index <= applied.index && 0 < meta.id.index && meta.id.term > 0
    ensures BesideOk(log.TruncatePrefix(meta.id.index + 1), cs[CountBelow(cs, meta.id.index + 1)..], meta, meta.id,
                     applied, meta.id, meta.conf)
  {
    hide ConfEntries, CountBelow;
    var index := meta.id.index + 1;
    ConfEntriesWithin(log);
    NoConfInNothing();
    CountBelowSplits(cs, index, if index == log.first then 0 else |cs|);
  }

  lemma NoConfInNothing()
    ensures ConfEntries([]) == []
  {
  }

  /** A snapshot of what the log holds: only the snapshot before it limits what is kept. */
  lemma NewerBeside(log: Store, cs: seq<ConfigurationEntry>, snapshot: ConfigurationEntry, virtual: LogId, applied: LogId,
                    dropped: LogId, before: Config, meta: ConfigurationEntry, newApplied: LogId)
    requires BesideOk(log, cs, snapshot, virtual, applied, dropped, before)
    requires log.Has(meta.id.index) && log.Get(meta.id.index).id.term == meta.id.term && 0 < meta.id.index <= newApplied.index
    requires meta.conf == ReplayConf(before, log.entries[..meta.id.index + 1 - log.first])
    ensures BesideOk(log, cs, meta, virtual, newApplied, dropped, before)
  {
  }

  lemma EmptyBeside(meta: ConfigurationEntry, applied: LogId)
    requires 0 < meta.id.index <= applied.index && meta.id.term > 0
    ensures BesideOk(Store(meta.id.index + 1, []), [], meta, meta.id, applied, meta.id, meta.conf)
  {
  }

  /** While entries are appended, the next one lies behind everything in the index. */
  lemma NextConfFits(log: Store, es: seq<LogEntry>, i: nat)
    requires log.Valid() && Follows(log, es) && i < |es|
    ensures var cs := ConfEntries(log.entries) + ConfEntries(es[..i]);
            && Ascending(cs) && (cs != [] ==> cs[|cs| - 1].id.index < es[i].id.index)
            && ConfEntries(es[..i + 1]) ==
                 ConfEntries(es[..i]) + (if es[i].payload.Conf? then [ConfigurationEntry(es[i].id, es[i].payload.conf)] else [])
  {
    var part := log.Append(es[..i]);
    ConfEntriesConcat(log.entries, es[..i]);
    assert part.Valid();
    ConfEntriesWithin(part);
    assert es[..i + 1][..i] == es[..i];
  }

  // ---- the disk thread

  /** The entries of a run of appends. */
  function Entries(tasks: seq<Task>): seq<LogEntry> {
    if tasks == [] then []
    else
      var t := tasks[|tasks| - 1];
      Entries(tasks[..|tasks| - 1]) + (if t.Append? then t.entries else [])
  }

  /** Writing the entries of collected appends at once is writing them one append after the other. */
  lemma {:induction false} AppendsAtOnce(s: Store, tasks: seq<Task>)
    requires forall k | 0 <= k < |tasks| :: tasks[k].Append?
    ensures Replay(s, tasks) == s.Append(Entries(tasks))
  {
    if tasks == [] {
      assert s.entries + [] == s.entries;
    } else {
      var n := |tasks| - 1;
      AppendsAtOnce(s, tasks[..n]);
      assert s.entries + Entries(tasks[..n]) + tasks[n].entries == s.entries + (Entries(tasks[..n]) + tasks[n].entries);
    }
  }

  lemma {:induction false} RunMany(storage: Store, tasks: seq<Task>, log: Store, mem: seq<LogEntry>, written: LogId, n: nat)
    requires HeldOk(storage, tasks, log, mem) && n <= |tasks|
    ensures HeldOk(Replay(storage, tasks[..n]), tasks[n..], log, mem)
    ensures ReadOk(storage, tasks, log, mem, written) ==>
              ReadOk(Replay(storage, tasks[..n]), tasks[n..], log, mem, Bound(written, tasks[..n]))
    decreases n
  {
    hide HeldOk, ReadOk;
    if n == 0 {
      assert tasks[..0] == [] && tasks[0..] == tasks;
    } else {
      RunMany(storage, tasks, log, mem, written, n - 1);
      var rest := tasks[n - 1..];
      RunLog(Replay(storage, tasks[..n - 1]), rest, log, mem, Bound(written, tasks[..n - 1]));
      OneMoreDone(storage, tasks, written, n);
    }
  }

  /** Running `n` tasks is running all but the last of them, then that one. */
  lemma OneMoreDone(storage: Store, tasks: seq<Task>, written: LogId, n: nat)
    requires 0 < n <= |tasks|
    ensures var rest := tasks[n - 1..];
            && rest[0] == tasks[n - 1] && rest[1..] == tasks[n..]
            && Replay(storage, tasks[..n]) == Apply(Replay(storage, tasks[..n - 1]), rest[0])
            && Bound(written, tasks[..n]) == Bound(Bound(written, tasks[..n - 1]), rest[..1])
  {
    var rest := tasks[n - 1..];
    assert tasks[..n][..n - 1] == tasks[..n - 1] && rest[..1] == [tasks[n - 1]];
    assert tasks[..n] == tasks[..n - 1] + [tasks[n - 1]];
    BoundOneMore(written, tasks[..n - 1], tasks[n - 1]);
    BoundOneMore(Bound(written, tasks[..n - 1]), [], tasks[n - 1]);
    assert [] + [tasks[n - 1]] == rest[..1];
  }

  lemma {:induction false} TracksMany(tasks: seq<Task>, log: Store, written: LogId, dropped: LogId, n: nat)
    requires Tracks(tasks, log, written, dropped) && n <= |tasks|
    ensures Tracks(tasks[n..], log, Bound(written, tasks[..n]), dropped)
    decreases n
  {
    hide Tracks;
    if n == 0 {
      assert tasks[..0] == [] && tasks[0..] == tasks;
    } else {
      TracksMany(tasks, log, written, dropped, n - 1);
      TracksShift(tasks[n - 1..], log, Bound(written, tasks[..n - 1]), dropped);
      OneMoreDone(Store(1, []), tasks, written, n);
    }
  }

  /** The collected entries end with those of the last append. */
  lemma EntriesEnd(tasks: seq<Task>)
    requires tasks != [] && tasks[|tasks| - 1].Append?
    ensures var last, all := tasks[|tasks| - 1].entries, Entries(tasks);
            |last| <= |all| && all[|all| - |last|..] == last
  {
  }
}
