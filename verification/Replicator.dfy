/** The in-flight window of a replicator: which requests to a follower are outstanding, and what each
    acknowledgement tells the ballot box. */
module Replicators {
  import opened Types

  /** A request: `size` entries from `index` on; a probe has none. */
  datatype Rpc = Rpc(index: nat, size: nat, id: nat)

  datatype St = Idle | Blocking | Appending | Installing

  /** How an AppendEntries call came back. */
  datatype Reply = Failed | HigherTerm | Mismatch(lastIndex: nat) | OtherTerm | Success

  /** Whether the snapshot request was sent, has to wait for a retry, or put the node into error. */
  datatype Install = Sent | Retry | Broken

  /** What the log manager answers while entries are being sent. */
  datatype LogView = LogView(prevKnown: bool, firstIndex: nat, readable: nat, install: Install)

  /** What is passed to `commit_at`. */
  datatype Range = Range(first: nat, last: nat)

  /** Non-empty requests that cover [lo, hi) without gap or overlap, in order, with growing ids. */
  ghost predicate Tiles(rpcs: seq<Rpc>, lo: int, hi: int) {
    if rpcs == [] then lo == hi
    else
      var r := rpcs[|rpcs| - 1];
      && r.size > 0 && r.index + r.size == hi && Tiles(rpcs[..|rpcs| - 1], lo, r.index)
      && forall q | q in rpcs[..|rpcs| - 1] :: q.id != r.id
  }

  lemma {:induction false} TilesFacts(rpcs: seq<Rpc>, lo: int, hi: int)
    requires Tiles(rpcs, lo, hi)
    ensures lo <= hi
    ensures forall i | 0 <= i < |rpcs| :: lo <= rpcs[i].index && rpcs[i].index + rpcs[i].size <= hi && rpcs[i].size > 0
    ensures forall i, j | 0 <= i < j < |rpcs| :: rpcs[i].index + rpcs[i].size <= rpcs[j].index && rpcs[i].id != rpcs[j].id
  {
    if rpcs != [] {
      var n := |rpcs| - 1;
      TilesFacts(rpcs[..n], lo, rpcs[n].index);
      forall i | 0 <= i < n
        ensures rpcs[i] in rpcs[..n] && rpcs[i] == rpcs[..n][i]
      {
      }
    }
  }

  lemma NoTiles(lo: int)
    ensures Tiles([], lo, lo)
  {
  }

  /** Removing the first request moves the lower end of the window by its size. */
  lemma {:induction false} TilesTail(rpcs: seq<Rpc>, lo: int, hi: int)
    requires Tiles(rpcs, lo, hi) && rpcs != []
    ensures rpcs[0].index == lo && Tiles(rpcs[1..], lo + rpcs[0].size, hi)
  {
    var n := |rpcs| - 1;
    if n == 0 {
      assert rpcs[..n] == [];
    } else {
      TilesTail(rpcs[..n], lo, rpcs[n].index);
      assert rpcs[..n][1..] == rpcs[1..][..n - 1];
      assert rpcs[1..][n - 1] == rpcs[n];
      forall q | q in rpcs[1..][..n - 1]
        ensures q.id != rpcs[n].id
      {
        assert q in rpcs[..n];
      }
    }
  }

  predicate IsProbe(rpcs: seq<Rpc>) {
    |rpcs| == 1 && rpcs[0].size == 0
  }

  /** One probe, or consecutive batches, from `lo` to `hi`. */
  ghost predicate Span(rpcs: seq<Rpc>, lo: int, hi: int) {
    if IsProbe(rpcs) then rpcs[0].index == hi && lo == hi else Tiles(rpcs, lo, hi)
  }

  lemma SpanTail(rpcs: seq<Rpc>, lo: int, hi: int)
    requires Span(rpcs, lo, hi) && rpcs != []
    ensures rpcs[0].index == lo && Span(rpcs[1..], lo + rpcs[0].size, hi) && !IsProbe(rpcs[1..])
  {
    hide Tiles;
    if IsProbe(rpcs) {
      NoTiles(hi);
    } else {
      TilesTail(rpcs, lo, hi);
      TilesFacts(rpcs, lo, hi);
    }
  }

  /** Requests before another one start below it, those behind it above. */
  lemma SpanOrder(rpcs: seq<Rpc>, lo: int, hi: int, j: nat)
    requires Span(rpcs, lo, hi) && j < |rpcs|
    ensures forall i | 0 <= i <= j :: rpcs[i].index <= rpcs[j].index
    ensures forall i | j < i < |rpcs| :: rpcs[i].index > rpcs[j].index
  {
    hide Tiles;
    if !IsProbe(rpcs) {
      TilesFacts(rpcs, lo, hi);
    }
  }

  /** The ranges given to `commit_at` since the last reset cover [base, next) in order. */
  ghost predicate Chain(ranges: seq<Range>, base: int, next: int) {
    if ranges == [] then base == next
    else
      var r := ranges[|ranges| - 1];
      r.first <= r.last && r.last + 1 == next && Chain(ranges[..|ranges| - 1], base, r.first)
  }

  lemma ChainOneMore(ranges: seq<Range>, base: int, next: int, r: Range)
    requires Chain(ranges, base, next) && r.first == next && r.first <= r.last
    ensures Chain(ranges + [r], base, r.last + 1)
  {
    assert (ranges + [r])[..|ranges|] == ranges;
  }

  /** The requests were sent as they are, with ids below the next one. */
  ghost predicate SentWith(rpcs: seq<Rpc>, sent: map<nat, Rpc>, next: nat) {
    && (forall r | r in rpcs :: r.id in sent && sent[r.id] == r)
    && (forall id | id in sent :: id < next)
  }

  lemma SentSuffix(rpcs: seq<Rpc>, sent: map<nat, Rpc>, next: nat, k: nat)
    requires SentWith(rpcs, sent, next) && k <= |rpcs|
    ensures SentWith(rpcs[k..], sent, next)
  {
  }

  lemma PushSpan(rpcs: seq<Rpc>, lo: int, hi: int, sent: map<nat, Rpc>, id: nat, count: nat)
    requires Span(rpcs, lo, hi) && !IsProbe(rpcs) && SentWith(rpcs, sent, id) && count > 0 && 0 <= lo
    ensures 0 <= lo <= hi
    ensures var r := Rpc(hi, count, id);
            Span(rpcs + [r], lo, hi + count) && !IsProbe(rpcs + [r]) && SentWith(rpcs + [r], sent[id := r], id + 1)
  {
    TilesFacts(rpcs, lo, hi);
    var r := Rpc(hi, count, id);
    assert (rpcs + [r])[..|rpcs|] == rpcs;
  }

  class Replicator {
    const maxEntries: nat
    const maxRpcs: nat
    var nextIndex: int
    var flying: int
    var inFly: seq<Rpc>
    var st: St
    var waitId: bool
    var canceled: bool
    var callId: nat

    // what the environment still owes: wake-ups of log waiters, a block timer, the second half of its
    // callback, a snapshot reply
    ghost var waiters: nat
    ghost var timer: bool
    ghost var resuming: bool
    ghost var installing: bool
    ghost var sent: map<nat, Rpc>
    ghost var base: int
    ghost var ranges: seq<Range>

    function MinFlying(): int
      reads this
    {
      nextIndex - flying
    }

    ghost predicate Probing()
      reads this
    {
      IsProbe(inFly)
    }

    /** No wake-up that is still under way may start sending. */
    ghost predicate Quiet()
      reads this
    {
      !waitId && (canceled || waiters == 0)
    }

    /** Nothing is in flight. */
    ghost predicate Empty()
      reads this
    {
      inFly == [] && flying == 0
    }

    ghost predicate Ids()
      reads this
    {
      SentWith(inFly, sent, callId)
    }

    /** One probe, or consecutive batches that span [MinFlying, nextIndex) and sum up to `flying`. */
    ghost predicate Window()
      reads this
    {
      Span(inFly, MinFlying(), nextIndex)
    }

    /** A probe, a block timer, its callback and a snapshot exclude each other and any batch. */
    ghost predicate OneActivity()
      reads this
    {
      && (Probing() || timer || resuming || installing ==> Quiet())
      && (timer || resuming || installing ==> Empty())
      && !(timer && resuming) && !(timer && installing) && !(resuming && installing)
      && (st == Blocking <==> timer)
      && (waitId ==> waiters > 0 && !canceled)
    }

    ghost predicate Valid()
      reads this
    {
      1 <= MinFlying() && Ids() && Window() && OneActivity() && Chain(ranges, base, MinFlying())
    }

    ghost predicate Free()
      reads this
    {
      !Probing() && !timer && !resuming && !installing
    }

    /** A snapshot is on its way to the follower, will be tried again later, or the node is in error. */
    ghost predicate Installed(install: Install)
      reads this
    {
      && Empty() && !waitId && (installing <==> install.Sent?) && (timer <==> install.Retry?)
      && st == if install.Retry? then Blocking else Installing
    }

    /** What sending makes of requests `was` in flight, with `size` entries, up to index `next`. At the limits nothing is
        sent. With something to read, one more batch is in flight: from the next index on, as many entries as can be read
        and have room. A snapshot is installed exactly when the entry before the next index is unknown, or there is
        nothing to read at it because the log starts behind it. */
    ghost predicate SentAfter(was: seq<Rpc>, size: int, next: int, id: nat, log: LogView)
      reads this
    {
      if size >= maxEntries || |was| >= maxRpcs then
        inFly == was && flying == size && nextIndex == next && callId == id && !installing && !timer
      else if !log.prevKnown || (log.readable == 0 && next < log.firstIndex) then
        nextIndex == next - size && callId == id && Installed(log.install)
      else
        var count := if maxEntries - size < log.readable then maxEntries - size else log.readable;
        && nextIndex == next + count && flying == size + count && !installing && !timer
        && (count <= 0 ==> inFly == was && callId == id)
        && (count > 0 ==>
              && |inFly| == |was| + 1 && inFly[..|was|] == was && callId == id + 1 && st == Appending
              && inFly[|was|].index == next && inFly[|was|].size == count && inFly[|was|].id == id)
        && (maxEntries > flying && maxRpcs > |inFly| ==> waitId)
    }

    /** Starts at the end of the leader's log, with a probe. */
    constructor (lastIndex: nat, maxEntries: nat, maxRpcs: nat)
      ensures Valid() && Free() && Empty() && Quiet() && nextIndex == lastIndex + 1 && st == Idle
      ensures base == nextIndex && ranges == []
    {
      this.maxEntries, this.maxRpcs := maxEntries, maxRpcs;
      nextIndex, flying, inFly, st, waitId, canceled, callId := lastIndex + 1, 0, [], Idle, false, false, 0;
      waiters, timer, resuming, installing, sent := 0, false, false, false, map[];
      base, ranges := lastIndex + 1, [];
    }

    /** Forgets everything in flight and goes back to the first unacknowledged index. */
    method ResetNextIndex()
      requires Valid() && !timer && !resuming && !installing
      modifies this
      ensures Valid() && Free() && Empty() && Quiet() && nextIndex == old(MinFlying())
      ensures unchanged(`ranges, `base, `sent, `callId, `waiters, `st)
    {
      nextIndex := nextIndex - flying;
      flying := 0;
      inFly := [];
      canceled := true;
      if waitId {
        waitId := false;
      }
    }

    /** Waits for a retry; a replicator that is already blocked has its timer. */
    method Block()
      requires Valid() && Free() && Empty() && Quiet()
      modifies this
      ensures Valid() && timer && st == Blocking && Empty() && nextIndex == old(nextIndex)
      ensures unchanged(`ranges, `base, `sent, `callId)
    {
      if st == Blocking {
        return;
      }
      st, timer := Blocking, true;
    }

    method InstallSnapshot(install: Install)
      requires Valid() && Free() && Empty() && Quiet()
      modifies this
      ensures Valid() && Empty() && nextIndex == old(nextIndex) && !Probing()
      ensures unchanged(`ranges, `base, `sent, `callId) && Installed(install)
    {
      match install
      case Sent => st, installing := Installing, true;
      case Retry => Block();
      case Broken => st := Installing;
    }

    /** Sends a probe; its own checks, an empty window and no flying entries, are what `Empty` says. */
    method SendEmptyEntries(prevKnown: bool, install: Install)
      requires Valid() && Free() && Empty() && Quiet()
      modifies this
      ensures Valid() && MinFlying() == old(MinFlying()) && unchanged(`ranges, `base)
      ensures nextIndex == old(nextIndex) && flying == 0
      ensures if prevKnown then inFly == [Rpc(nextIndex, 0, old(callId))] && st == Appending else Installed(install)
    {
      if !prevKnown {
        InstallSnapshot(install);
        return;
      }
      st := Appending;
      var rpc := Rpc(nextIndex, 0, callId);
      inFly := inFly + [rpc];
      sent := sent[callId := rpc];
      callId := callId + 1;
    }

    method WaitMoreEntries()
      requires Valid() && Free()
      modifies this
      ensures Valid() && MinFlying() == old(MinFlying()) && unchanged(`ranges, `base)
      ensures unchanged(`nextIndex, `flying, `inFly, `callId, `timer, `installing, `resuming)
      ensures waitId == (old(waitId) || (maxEntries > flying && maxRpcs > |inFly|))
      ensures st == if flying == 0 then Idle else old(st)
    {
      if !waitId && maxEntries > flying && maxRpcs > |inFly| {
        waitId, canceled := true, false;
        waiters := waiters + 1;
      }
      if flying == 0 {
        st := Idle;
      }
    }

    /** Sends the next batch, as far as limits and readable entries allow. */
    method SendEntries(log: LogView)
      requires Valid() && !Probing() && !resuming && !installing
      modifies this
      ensures Valid() && MinFlying() == old(MinFlying()) && unchanged(`ranges, `base)
      ensures if old(st) == Blocking then unchanged(this)
              else SentAfter(old(inFly), old(flying), old(nextIndex), old(callId), log)
      ensures old(flying) >= maxEntries || |old(inFly)| >= maxRpcs ==> unchanged(this)
    {
      hide Chain, Tiles;
      if flying >= maxEntries || |inFly| >= maxRpcs || st == Blocking {
        return;
      }
      TilesFacts(inFly, MinFlying(), nextIndex);
      if !log.prevKnown {
        ResetNextIndex();
        InstallSnapshot(log.install);
        return;
      }
      var count := 0;
      while count < maxEntries - flying && count < log.readable
        invariant 0 <= count <= maxEntries - flying && count <= log.readable
      {
        count := count + 1;
      }
      if count == 0 {
        if nextIndex < log.firstIndex {
          ResetNextIndex();
          InstallSnapshot(log.install);
          return;
        }
        WaitMoreEntries();
        return;
      }
      PushBatch(count);
      WaitMoreEntries();
    }

    method PushBatch(count: nat)
      requires Valid() && Free() && count > 0
      modifies this
      ensures Valid() && Free() && MinFlying() == old(MinFlying()) && unchanged(`ranges, `base)
      ensures inFly == old(inFly) + [Rpc(old(nextIndex), count, old(callId))] && flying == old(flying) + count
      ensures nextIndex == old(nextIndex) + count && callId == old(callId) + 1 && st == Appending && unchanged(`waitId)
    {
      hide Chain, Span, SentWith;
      PushSpan(inFly, MinFlying(), nextIndex, sent, callId, count);
      var rpc := Rpc(nextIndex, count, callId);
      inFly := inFly + [rpc];
      sent := sent[callId := rpc];
      callId := callId + 1;
      nextIndex := nextIndex + count;
      flying := flying + count;
      st := Appending;
    }

    /** Is the returned request still one of ours? */
    method IsValid(rpc: Rpc) returns (valid: bool)
      requires Valid() && rpc.id in sent && sent[rpc.id] == rpc
      ensures valid <==> rpc in inFly
    {
      valid := false;
      if !Probing() {
        TilesFacts(inFly, MinFlying(), nextIndex);
      }
      var i := 0;
      while i < |inFly|
        invariant i <= |inFly|
        invariant valid <==> rpc in inFly[..i]
      {
        if inFly[i].index > rpc.index {
          assert forall j | i <= j < |inFly| :: inFly[j].index >= inFly[i].index;
          assert rpc in inFly <==> rpc in inFly[..i];
          return;
        }
        if inFly[i].id == rpc.id {
          assert inFly[i] in inFly;
          valid := true;
        }
        i := i + 1;
      }
      assert inFly[..i] == inFly;
    }

    /** Drops the acknowledged request and everything before it. */
    method PopAcknowledged(rpc: Rpc)
      requires Valid() && rpc in inFly
      modifies this`inFly, this`flying
      ensures Ids() && Window() && OneActivity() && !Probing()
      ensures MinFlying() == rpc.index + rpc.size
      ensures exists k | 0 < k <= |old(inFly)| :: old(inFly)[k - 1] == rpc && inFly == old(inFly)[k..]
    {
      hide Span, Chain, SentWith;
      ghost var q, k, j := inFly, 0, 0;
      j :| 0 <= j < |inFly| && inFly[j] == rpc;
      SpanOrder(q, MinFlying(), nextIndex, j);
      while inFly != [] && inFly[0].index <= rpc.index
        invariant 0 <= k <= j + 1 && inFly == q[k..] && Window()
        invariant k > 0 ==> MinFlying() == q[k - 1].index + q[k - 1].size && !IsProbe(inFly)
        decreases |inFly|
      {
        SpanTail(inFly, MinFlying(), nextIndex);
        flying, inFly, k := flying - inFly[0].size, inFly[1..], k + 1;
      }
      assert q[k - 1] == rpc;
      SentSuffix(q, sent, callId, k);
    }

    /** The follower does not have the entry before the request: go back, to its last entry or by one. */
    method StepBack(lastIndex: nat)
      requires Valid() && Free() && Empty() && Quiet()
      modifies this`nextIndex, this`base, this`ranges
      ensures Valid() && Free() && Empty() && Quiet() && 1 <= nextIndex <= old(nextIndex)
      ensures nextIndex == if lastIndex + 1 < old(nextIndex) then lastIndex + 1
                           else if old(nextIndex) > 1 then old(nextIndex) - 1 else old(nextIndex)
      ensures base == nextIndex && ranges == []
    {
      if lastIndex + 1 < nextIndex {
        nextIndex := lastIndex + 1;
      } else if nextIndex > 1 {
        nextIndex := nextIndex - 1;
      }
      base, ranges := nextIndex, [];
    }

    /** A call came back. A request that is no longer ours is ignored; an acknowledged batch is given to
        `commit_at` from the first unacknowledged index to its own last one, which leaves the window right behind it. */
    method OnRpcReturned(rpc: Rpc, reply: Reply, log: LogView) returns (commit: Option<Range>, destroyed: bool)
      requires Valid() && rpc.id in sent && sent[rpc.id] == rpc
      modifies this
      ensures Valid()
      ensures destroyed <==> rpc in old(inFly) && reply.HigherTerm?
      ensures rpc !in old(inFly) ==> unchanged(this)
      ensures commit == if rpc in old(inFly) && reply.Success? && rpc.size > 0
                        then Some(Range(old(MinFlying()), rpc.index + rpc.size - 1)) else None
      ensures rpc in old(inFly) && reply.Success? ==>
                MinFlying() == rpc.index + rpc.size && ranges == old(ranges) + (if rpc.size > 0 then [commit.value] else [])
      ensures rpc in old(inFly) && reply.Success? ==>
                exists k | 0 < k <= |old(inFly)| ::
                  && old(inFly)[k - 1] == rpc
                  && SentAfter(old(inFly)[k..], old(nextIndex) - rpc.index - rpc.size, old(nextIndex), old(callId), log)
      ensures rpc in old(inFly) && !reply.Success? && !reply.Mismatch? ==>
                Empty() && nextIndex == old(MinFlying()) && (timer <==> reply.Failed?)
      ensures rpc in old(inFly) && reply.Mismatch? ==>
                && nextIndex == (if reply.lastIndex + 1 < old(MinFlying()) then reply.lastIndex + 1
                                 else if old(MinFlying()) > 1 then old(MinFlying()) - 1 else old(MinFlying()))
                && flying == 0
                && if log.prevKnown then inFly == [Rpc(nextIndex, 0, old(callId))] else Installed(log.install)
    {
      hide Chain, Tiles;
      commit, destroyed := None, false;
      var minFlying := MinFlying();
      var valid := IsValid(rpc);
      if !valid {
        return;
      }
      match reply
      case Failed =>
        ResetNextIndex();
        Block();
      case HigherTerm =>
        ResetNextIndex();
        destroyed := true;
      case Mismatch(lastIndex) =>
        ResetNextIndex();
        StepBack(lastIndex);
        SendEmptyEntries(log.prevKnown, log.install);
      case OtherTerm => ResetNextIndex();
      case Success =>
        AcknowledgedSize(rpc);
        PopAcknowledged(rpc);
        if rpc.size > 0 {
          commit := Some(Range(minFlying, rpc.index + rpc.size - 1));
          ChainOneMore(ranges, base, minFlying, commit.value);
          ranges := ranges + [commit.value];
        }
        SendEntries(log);
    }

    lemma AcknowledgedSize(rpc: Rpc)
      requires Valid() && rpc in inFly
      ensures if rpc.size > 0 then MinFlying() <= rpc.index else MinFlying() == rpc.index
    {
      if !Probing() {
        TilesFacts(inFly, MinFlying(), nextIndex);
      }
    }

    /** A log waiter wakes up; a cancelled one does nothing. */
    method OnWake(log: LogView)
      requires Valid() && waiters > 0
      modifies this
      ensures Valid() && MinFlying() == old(MinFlying()) && unchanged(`ranges, `base)
      ensures if old(canceled) then unchanged(`inFly, `flying, `nextIndex, `callId, `st, `waitId, `timer, `installing)
              else SentAfter(old(inFly), old(flying), old(nextIndex), old(callId), log)
    {
      hide Chain, Tiles;
      waiters := waiters - 1;
      if !canceled {
        waitId := false;
        SendEntries(log);
      }
    }

    /** The block timer fires: the replicator is idle again and continues in a second step. */
    method OnBlockTimedOut()
      requires Valid() && timer
      modifies this
      ensures Valid() && resuming && MinFlying() == old(MinFlying()) && unchanged(`ranges, `base)
    {
      st := Idle;
      timer, resuming := false, true;
    }

    method ContinueAfterBlock(log: LogView)
      requires Valid() && resuming
      modifies this
      ensures Valid() && nextIndex == old(nextIndex) && flying == 0 && unchanged(`ranges, `base)
      ensures if log.prevKnown then inFly == [Rpc(nextIndex, 0, old(callId))] else Installed(log.install)
    {
      resuming := false;
      if waitId {
        return;
      }
      SendEmptyEntries(log.prevKnown, log.install);
    }

    /** The snapshot request came back; after a success the follower continues behind the snapshot. */
    method OnInstallReturned(ok: bool, lastIncluded: nat, log: LogView)
      requires Valid() && installing
      modifies this
      ensures Valid() && MinFlying() == if ok then lastIncluded + 1 else old(MinFlying())
      ensures if ok then SentAfter([], 0, lastIncluded + 1, old(callId), log) else timer && Empty()
    {
      installing := false;
      if !ok {
        Block();
        return;
      }
      nextIndex := lastIncluded + 1;
      base, ranges := nextIndex, [];
      SendEntries(log);
    }
  }
}
