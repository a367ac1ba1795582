/** The index of the configuration entries of the log. */
module ConfigurationManagers {
  import opened Types
  import opened LogStorages

  datatype ConfigurationEntry = ConfigurationEntry(id: LogId, conf: Config)

  /** The configuration entries of a run of log entries, in order. */
  function ConfEntries(es: seq<LogEntry>): seq<ConfigurationEntry> {
    if es == [] then []
    else
      var rest, last := ConfEntries(es[..|es| - 1]), es[|es| - 1];
      if last.payload.Conf? then rest + [ConfigurationEntry(last.id, last.payload.conf)] else rest
  }

  /** The configuration in force behind the entries, `before` being in force before them. */
  function ReplayConf(before: Config, es: seq<LogEntry>): Config {
    if es == [] then before
    else
      var last := es[|es| - 1];
      if last.payload.Conf? then last.payload.conf else ReplayConf(before, es[..|es| - 1])
  }

  ghost predicate Ascending(cs: seq<ConfigurationEntry>) {
    forall i, j | 0 <= i < j < |cs| :: cs[i].id.index < cs[j].id.index
  }

  /** How many of the entries have an index below `index`. */
  function CountBelow(cs: seq<ConfigurationEntry>, index: nat): (n: nat)
    ensures n <= |cs|
  {
    if cs == [] || cs[0].id.index >= index then 0 else 1 + CountBelow(cs[1..], index)
  }

  lemma {:induction false} CountBelowSplits(cs: seq<ConfigurationEntry>, index: nat, n: nat)
    requires n <= |cs| && (forall i | 0 <= i < n :: cs[i].id.index < index) && (n < |cs| ==> cs[n].id.index >= index)
    ensures CountBelow(cs, index) == n
  {
    if n > 0 {
      CountBelowSplits(cs[1..], index, n - 1);
    }
  }

  class ConfigurationManager {
    var configurations: seq<ConfigurationEntry>
    var snapshot: ConfigurationEntry

    ghost predicate Valid()
      reads this
    {
      Ascending(configurations)
    }

    constructor ()
      ensures Valid() && configurations == []
      ensures snapshot == ConfigurationEntry(LogId(0, 0), Config({}, {}))
    {
      configurations, snapshot := [], ConfigurationEntry(LogId(0, 0), Config({}, {}));
    }

    /** An entry that does not lie behind the last one is refused. */
    method Add(entry: ConfigurationEntry) returns (code: int)
      requires Valid()
      modifies this`configurations
      ensures Valid()
      ensures code == 0 <==> old(configurations) == [] || old(configurations)[|old(configurations)| - 1].id.index < entry.id.index
      ensures configurations == if code == 0 then old(configurations) + [entry] else old(configurations)
    {
      if configurations != [] && configurations[|configurations| - 1].id.index >= entry.id.index {
        return -1;
      }
      configurations := configurations + [entry];
      code := 0;
    }

    /** Drops exactly the entries below `firstIndexKept`. */
    method TruncatePrefix(firstIndexKept: nat)
      requires Valid()
      modifies this`configurations
      ensures Valid() && configurations == old(configurations)[CountBelow(old(configurations), firstIndexKept)..]
    {
      ghost var n := 0;
      while configurations != [] && configurations[0].id.index < firstIndexKept
        invariant n <= |old(configurations)| && configurations == old(configurations)[n..]
        invariant forall i | 0 <= i < n :: old(configurations)[i].id.index < firstIndexKept
        decreases |configurations|
      {
        configurations := configurations[1..];
        n := n + 1;
      }
      CountBelowSplits(old(configurations), firstIndexKept, n);
    }

    /** Drops exactly the entries above `lastIndexKept`. */
    method TruncateSuffix(lastIndexKept: nat)
      requires Valid()
      modifies this`configurations
      ensures Valid() && configurations == old(configurations)[..CountBelow(old(configurations), lastIndexKept + 1)]
    {
      while configurations != [] && configurations[|configurations| - 1].id.index > lastIndexKept
        invariant configurations <= old(configurations)
        invariant |configurations| < |old(configurations)| ==> old(configurations)[|configurations|].id.index > lastIndexKept
        decreases |configurations|
      {
        configurations := configurations[..|configurations| - 1];
      }
      CountBelowSplits(old(configurations), lastIndexKept + 1, |configurations|);
    }

    /** The snapshot's configuration is in force where no listed one is; everywhere else nothing changes. A snapshot never
        goes back; the check of the source is the precondition. */
    method SetSnapshot(entry: ConfigurationEntry)
      requires entry.id.AtLeast(snapshot.id)
      modifies this`snapshot
      ensures snapshot == entry
      ensures forall index: nat {:trigger InForce(index)} ::
                InForce(index) == if CountBelow(configurations, index + 1) == 0 then entry else old(InForce(index))
    {
      snapshot := entry;
    }

    /** The last configuration up to an index, the snapshot's when there is none. */
    function InForce(index: nat): ConfigurationEntry
      reads this
    {
      var n := CountBelow(configurations, index + 1);
      if n == 0 then snapshot else configurations[n - 1]
    }

    method Get(lastIncludedIndex: nat) returns (conf: ConfigurationEntry)
      requires Valid() && (configurations == [] ==> lastIncludedIndex >= snapshot.id.index)
      ensures conf == InForce(lastIncludedIndex)
      ensures conf == snapshot || (conf in configurations && conf.id.index <= lastIncludedIndex)
      ensures forall c | c in configurations && c.id.index <= lastIncludedIndex :: c.id.index <= conf.id.index
    {
      if configurations == [] {
        return snapshot;
      }
      var it := 0;
      while it < |configurations| && configurations[it].id.index <= lastIncludedIndex
        invariant it <= |configurations|
        invariant forall i | 0 <= i < it :: configurations[i].id.index <= lastIncludedIndex
      {
        it := it + 1;
      }
      CountBelowSplits(configurations, lastIncludedIndex + 1, it);
      if it == 0 {
        return snapshot;
      }
      conf := configurations[it - 1];
    }

    /** The newest of all, the snapshot's when there is no other. */
    function LastConfiguration(): (r: ConfigurationEntry)
      requires Valid()
      reads this
      ensures r == snapshot || r in configurations
      ensures forall c | c in configurations :: c.id.index <= r.id.index && r in configurations
    {
      if configurations != [] then configurations[|configurations| - 1] else snapshot
    }
  }

  // ---- the index and the log

  /** Cutting from both sides of one index leaves nothing. */
  lemma {:induction false} NothingBetween(cs: seq<ConfigurationEntry>, index: nat)
    ensures var rest := cs[CountBelow(cs, index)..]; rest[..CountBelow(rest, index)] == []
    decreases |cs|
  {
    var n := CountBelow(cs, index);
    if cs != [] && cs[0].id.index < index {
      NothingBetween(cs[1..], index);
      assert cs[1..][n - 1..] == cs[n..];
    } else {
      assert cs[n..] == cs;
    }
  }

  lemma {:induction false} ConfEntriesConcat(a: seq<LogEntry>, b: seq<LogEntry>)
    ensures ConfEntries(a + b) == ConfEntries(a) + ConfEntries(b)
  {
    if b == [] {
      assert a + b == a;
    } else {
      var n := |b| - 1;
      assert (a + b)[..|a| + n] == a + b[..n];
      ConfEntriesConcat(a, b[..n]);
    }
  }

  lemma {:induction false} ReplayConfConcat(before: Config, a: seq<LogEntry>, b: seq<LogEntry>)
    ensures ReplayConf(before, a + b) == ReplayConf(ReplayConf(before, a), b)
  {
    if b == [] {
      assert a + b == a;
    } else {
      var n := |b| - 1;
      assert (a + b)[..|a| + n] == a + b[..n];
      ReplayConfConcat(before, a, b[..n]);
    }
  }

  /** The entries of the index lie between the indices of the log entries they come from. */
  lemma {:induction false} ConfEntriesWithin(s: Store)
    requires s.Valid()
    ensures Ascending(ConfEntries(s.entries))
    ensures forall i | 0 <= i < |ConfEntries(s.entries)| :: s.first <= ConfEntries(s.entries)[i].id.index <= s.Last()
    decreases |s.entries|
  {
    if s.entries != [] {
      ConfEntriesWithin(s.(entries := s.entries[..|s.entries| - 1]));
    }
  }

  /** Counting below an index is counting in the part of the log below it. */
  lemma CountIsPrefix(s: Store, index: nat)
    requires s.Valid() && s.first <= index <= s.Last() + 1
    ensures var n := index - s.first;
            && CountBelow(ConfEntries(s.entries), index) == |ConfEntries(s.entries[..n])|
            && ConfEntries(s.entries) == ConfEntries(s.entries[..n]) + ConfEntries(s.entries[n..])
  {
    hide ConfEntries, CountBelow;
    var n := index - s.first;
    var a, b := s.entries[..n], s.entries[n..];
    assert a + b == s.entries;
    ConfEntriesConcat(a, b);
    ConfEntriesWithin(Store(s.first, a));
    assert forall k | 0 <= k < |b| :: b[k] == s.entries[n + k];
    ConfEntriesWithin(Store(index, b));
    CountBelowSplits(ConfEntries(s.entries), index, |ConfEntries(a)|);
  }

  lemma {:induction false} LastIsReplay(before: Config, es: seq<LogEntry>)
    ensures ReplayConf(before, es) ==
              if ConfEntries(es) == [] then before else ConfEntries(es)[|ConfEntries(es)| - 1].conf
  {
    if es != [] {
      LastIsReplay(before, es[..|es| - 1]);
    }
  }

  /** Looking an index up in the deque gives what replaying the log gives, from the snapshot's index on: whether
      the answer comes from the deque or from the snapshot. */
  lemma LookupIsReplay(s: Store, before: Config, snapshot: ConfigurationEntry, index: nat)
    requires s.Valid() && s.first - 1 <= snapshot.id.index <= index <= s.Last()
    requires snapshot.conf == ReplayConf(before, s.entries[..snapshot.id.index + 1 - s.first])
    ensures var cs := ConfEntries(s.entries);
            var n := CountBelow(cs, index + 1);
            (if n == 0 then snapshot else cs[n - 1]).conf == ReplayConf(before, s.entries[..index + 1 - s.first])
  {
    hide ConfEntries, ReplayConf, CountBelow;
    var cs := ConfEntries(s.entries);
    var upTo, toSnap := s.entries[..index + 1 - s.first], s.entries[..snapshot.id.index + 1 - s.first];
    CountIsPrefix(s, index + 1);
    LastIsReplay(before, upTo);
    LastIsReplay(before, toSnap);
    assert upTo == toSnap + upTo[|toSnap|..];
    ConfEntriesConcat(toSnap, upTo[|toSnap|..]);
  }
}
