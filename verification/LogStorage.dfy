/** What a log storage holds, on values, and the simple storage that keeps its entries in a deque. */
module LogStorages {
  import opened Types

  datatype LogEntry = LogEntry(id: LogId, payload: Payload)

  /** A contiguous run of entries; `first` is where the log starts, even when it is empty. */
  datatype Store = Store(first: nat, entries: seq<LogEntry>) {
    function Last(): int {
      first + |entries| - 1
    }

    predicate Has(index: int) {
      first <= index <= Last()
    }

    function Get(index: int): LogEntry
      requires Has(index)
    {
      entries[index - first]
    }

    /** What the storage answers for an index. */
    function Read(index: int): Option<LogEntry> {
      if Has(index) then Some(Get(index)) else None
    }

    function Term(index: int): nat {
      if Has(index) then Get(index).id.term else 0
    }

    ghost predicate Valid() {
      first > 0 && forall k {:trigger entries[k]} | 0 <= k < |entries| :: entries[k].id.index == first + k
    }

    function Append(es: seq<LogEntry>): Store {
      this.(entries := entries + es)
    }

    /** [1, index) is discarded. */
    function TruncatePrefix(index: nat): Store {
      if index <= first then this
      else if index > Last() then Store(index, [])
      else Store(index, entries[index - first..])
    }

    /** Everything behind `index` is discarded. */
    function TruncateSuffix(index: nat): Store {
      if index > Last() then this
      else if index + 1 < first then Store(index + 1, [])
      else Store(first, entries[..index + 1 - first])
    }

    function Reset(next: nat): Store {
      Store(next, [])
    }
  }

  /** The entries fit right behind the store. */
  ghost predicate Follows(s: Store, es: seq<LogEntry>) {
    forall k {:trigger es[k]} | 0 <= k < |es| :: es[k].id.index == s.Last() + 1 + k
  }

  /** The entries that are the next one at their turn, `next` being expected first. */
  function Accepted(es: seq<LogEntry>, next: int): seq<LogEntry> {
    if es == [] then []
    else if es[0].id.index == next then [es[0]] + Accepted(es[1..], next + 1)
    else Accepted(es[1..], next)
  }

  /** An entry is taken exactly when it is the next one after those taken before it, whatever was refused. */
  lemma {:induction false} AcceptedOneMore(es: seq<LogEntry>, next: int, e: LogEntry)
    ensures Accepted(es + [e], next) ==
              Accepted(es, next) + if e.id.index == next + |Accepted(es, next)| then [e] else []
  {
    if es == [] {
      assert ([e])[1..] == [];
    } else {
      assert (es + [e])[1..] == es[1..] + [e] && (es + [e])[0] == es[0];
      AcceptedOneMore(es[1..], if es[0].id.index == next then next + 1 else next, e);
    }
  }

  /** What can be read after a change: exactly the discarded indices are gone, exactly the appended ones are new. */
  lemma ChangedReads(s: Store, es: seq<LogEntry>, index: nat, j: int)
    ensures s.TruncatePrefix(index).Read(j) == (if j < index then None else s.Read(j))
    ensures s.TruncateSuffix(index).Read(j) == (if j > index then None else s.Read(j))
    ensures s.Append(es).Read(j) == if s.Last() < j <= s.Last() + |es| && j >= s.first then Some(es[j - s.Last() - 1]) else s.Read(j)
    ensures s.TruncatePrefix(index).first == (if index > s.first then index else s.first)
    ensures index >= s.first - 1 ==> s.TruncateSuffix(index).first == s.first
    ensures s.Reset(index).first == index && s.Reset(index).Read(j) == None
  {
  }

  lemma {:induction false} AcceptedFewer(es: seq<LogEntry>, next: int)
    ensures |Accepted(es, next)| <= |es|
  {
    if es != [] {
      AcceptedFewer(es[1..], if es[0].id.index == next then next + 1 else next);
    }
  }

  lemma {:induction false} AcceptedIs(es: seq<LogEntry>, next: int)
    ensures Accepted(es, next) == es <==> forall k {:trigger es[k]} | 0 <= k < |es| :: es[k].id.index == next + k
  {
    if es != [] {
      if es[0].id.index == next {
        AcceptedIs(es[1..], next + 1);
        assert forall k | 0 <= k < |es| - 1 :: es[1..][k] == es[k + 1];
        assert es == [es[0]] + es[1..];
        if Accepted(es, next) == es {
          assert Accepted(es[1..], next + 1) == Accepted(es, next)[1..] == es[1..];
          assert forall k | 0 < k < |es| :: es[k] == es[1..][k - 1];
        }
      } else {
        AcceptedFewer(es[1..], next);
      }
    }
  }

  lemma AcceptedAll(s: Store, es: seq<LogEntry>)
    ensures Follows(s, es) <==> s.Append(Accepted(es, s.Last() + 1)) == s.Append(es)
  {
    var got := Accepted(es, s.Last() + 1);
    AcceptedIs(es, s.Last() + 1);
    if s.Append(got) == s.Append(es) {
      assert (s.entries + got)[|s.entries|..] == got && (s.entries + es)[|s.entries|..] == es;
    }
  }

  lemma AppendTwice(s: Store, a: seq<LogEntry>, b: seq<LogEntry>)
    ensures s.Append(a).Append(b) == s.Append(a + b)
  {
    assert s.entries + a + b == s.entries + (a + b);
  }

  class MemoryLogStorage {
    var firstLogIndex: nat
    var lastLogIndex: int
    var logEntryData: seq<LogEntry>

    ghost predicate Valid()
      reads this
    {
      View().Valid() && lastLogIndex == View().Last()
    }

    ghost function View(): Store
      reads this
    {
      Store(firstLogIndex, logEntryData)
    }

    constructor ()
      ensures Valid() && View() == Store(1, [])
    {
      firstLogIndex, lastLogIndex, logEntryData := 1, 0, [];
    }

    /** The index check of the source is proved here: the entry found is the one asked for. */
    method GetEntry(index: int) returns (entry: Option<LogEntry>)
      requires Valid()
      ensures entry == View().Read(index)
      ensures entry.Some? ==> entry.value.id.index == index
    {
      if index < firstLogIndex || index > lastLogIndex {
        return None;
      }
      entry := Some(logEntryData[index - firstLogIndex]);
    }

    /** An entry that does not continue the log is refused. */
    method AppendEntry(entry: LogEntry) returns (code: int)
      requires Valid()
      modifies this
      ensures Valid() && (code == 0 <==> entry.id.index == old(lastLogIndex) + 1)
      ensures View() == if code == 0 then old(View()).Append([entry]) else old(View())
    {
      if entry.id.index != lastLogIndex + 1 {
        return ERANGE;
      }
      logEntryData := logEntryData + [entry];
      lastLogIndex := lastLogIndex + 1;
      code := 0;
    }

    /** Every entry that is the next one at its turn is taken, the others are passed over; all of them are reported as
        appended. */
    method AppendEntries(entries: seq<LogEntry>) returns (n: nat)
      requires Valid()
      modifies this
      ensures Valid() && n == |entries| && View() == old(View()).Append(Accepted(entries, old(View()).Last() + 1))
      ensures Follows(old(View()), entries) <==> View() == old(View()).Append(entries)
    {
      var i := 0;
      assert entries[0..] == entries;
      while i < |entries|
        invariant i <= |entries| && Valid()
        invariant View().Append(Accepted(entries[i..], View().Last() + 1)) ==
                    old(View()).Append(Accepted(entries, old(View()).Last() + 1))
      {
        var e := entries[i];
        assert entries[i..][1..] == entries[i + 1..];
        ghost var was := View();
        var code := AppendEntry(e);
        if code == 0 {
          AppendTwice(was, [e], Accepted(entries[i + 1..], was.Last() + 2));
        }
        i := i + 1;
      }
      assert View().Append([]) == View();
      AcceptedAll(old(View()), entries);
      n := |entries|;
    }

    static method PopBelow(data: seq<LogEntry>, firstIndexKept: nat, ghost first: nat) returns (rest: seq<LogEntry>)
      requires forall k {:trigger data[k]} | 0 <= k < |data| :: data[k].id.index == first + k
      ensures rest == data[if firstIndexKept <= first then 0 else if firstIndexKept - first > |data| then |data|
                           else firstIndexKept - first..]
    {
      rest := data;
      ghost var n := 0;
      while rest != [] && rest[0].id.index < firstIndexKept
        invariant n <= |data| && rest == data[n..] && (n == 0 || n <= firstIndexKept - first)
        decreases |rest|
      {
        rest := rest[1..];
        n := n + 1;
      }
    }

    /** Drops what lies before `firstIndexKept`. An index below the log moves the beginning of the log to where it has no
        entries, so that indices and entries no longer match. */
    method TruncatePrefix(firstIndexKept: nat) returns (code: int)
      requires Valid()
      modifies this
      ensures code == 0 && (Valid() <==> old(firstLogIndex) <= firstIndexKept)
      ensures Valid() ==> View() == old(View()).TruncatePrefix(firstIndexKept)
      ensures !Valid() ==>
                firstLogIndex == firstIndexKept && lastLogIndex == old(lastLogIndex) && logEntryData == old(logEntryData)
    {
      logEntryData := PopBelow(logEntryData, firstIndexKept, firstLogIndex);
      firstLogIndex := firstIndexKept;
      if firstLogIndex > lastLogIndex {
        lastLogIndex := firstIndexKept - 1;
      }
      code := 0;
    }

    /** Drops what lies behind `lastIndexKept`, all of it and the beginning of the log too when that is below the log. An
        index behind the log moves the end of the log to where it has no entries. */
    method TruncateSuffix(lastIndexKept: nat) returns (code: int)
      requires Valid()
      modifies this
      ensures code == 0 && (Valid() <==> lastIndexKept <= old(lastLogIndex))
      ensures Valid() ==> View() == old(View()).TruncateSuffix(lastIndexKept)
      ensures !Valid() ==> lastLogIndex == lastIndexKept && View() == old(View())
    {
      while logEntryData != [] && logEntryData[|logEntryData| - 1].id.index > lastIndexKept
        invariant logEntryData <= old(logEntryData)
        invariant |logEntryData| == |old(logEntryData)| || |logEntryData| >= lastIndexKept + 1 - firstLogIndex
        invariant firstLogIndex == old(firstLogIndex) && lastLogIndex == old(lastLogIndex)
        decreases |logEntryData|
      {
        logEntryData := logEntryData[..|logEntryData| - 1];
      }
      lastLogIndex := lastIndexKept;
      if firstLogIndex > lastLogIndex {
        firstLogIndex := lastIndexKept + 1;
      }
      code := 0;
    }

    method Reset(nextLogIndex: int) returns (code: int)
      requires Valid()
      modifies this
      ensures Valid() && (code == 0 <==> nextLogIndex > 0)
      ensures View() == if nextLogIndex > 0 then old(View()).Reset(nextLogIndex) else old(View())
    {
      if nextLogIndex <= 0 {
        return EINVAL;
      }
      while logEntryData != []
        decreases |logEntryData|
      {
        logEntryData := logEntryData[..|logEntryData| - 1];
      }
      firstLogIndex, lastLogIndex := nextLogIndex, nextLogIndex - 1;
      code := 0;
    }
  }
}
