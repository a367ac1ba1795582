/** The ballot box of a leader: one ballot per uncommitted index, and the closures waiting behind it. */
module BallotBoxes {
  import opened Types
  import opened Quorum
  import opened BallotSpec
  import opened Ballots
  import opened ClosureQueues

  class BallotBox {
    var pendingIndex: nat
    var pendingMetaQueue: seq<Ballot>
    var lastCommittedIndex: nat
    const closureQueue: ClosureQueue
    ghost var ballots: seq<BallotState>

    ghost predicate Valid()
      reads this, pendingMetaQueue
    {
      && |ballots| == |pendingMetaQueue|
      && (forall i, j | 0 <= i < j < |pendingMetaQueue| :: pendingMetaQueue[i] != pendingMetaQueue[j])
      && (forall i | 0 <= i < |pendingMetaQueue| :: pendingMetaQueue[i].Valid() && pendingMetaQueue[i].view == ballots[i])
    }

    ghost function View(): Box
      reads this
    {
      Box(pendingIndex, ballots)
    }

    constructor (queue: ClosureQueue)
      ensures Valid() && closureQueue == queue && View() == NoBox && lastCommittedIndex == 0
    {
      pendingIndex, pendingMetaQueue, lastCommittedIndex, ballots := 0, [], 0, [];
      closureQueue := queue;
    }

    /** Grants `peer` on [first, last]. `notice` is the index the state machine caller is told about, if any. */
    method CommitAt(first: nat, last: nat, peer: PeerId) returns (code: int, notice: Option<nat>)
      requires Valid()
      modifies this, pendingMetaQueue
      ensures Valid()
      ensures code == if old(pendingIndex) == 0 then EINVAL
                      else if last >= old(pendingIndex) + |old(ballots)| then ERANGE else 0
      ensures var r := BallotSpec.CommitAt(old(View()), first, last, peer);
              && View() == r.box
              && lastCommittedIndex == (if r.committed == 0 then old(lastCommittedIndex) else r.committed)
              && notice == (if r.committed == 0 then None else Some(r.committed))
      ensures if Counts(old(View()), first, last)
              then LargestQuorum(old(View()), first, last, peer, if notice.Some? then notice.value else 0)
              else notice.None? && View() == old(View())
      ensures lastCommittedIndex == if notice.Some? then notice.value else old(lastCommittedIndex)
    {
      hide Lists, Missing, IsQuorum, LastGranted, LargestQuorum;
      CommitAtExactly(View(), first, last, peer);
      notice := None;
      if pendingIndex == 0 {
        return EINVAL, notice;
      }
      if last < pendingIndex {
        return 0, notice;
      }
      if last >= pendingIndex + |pendingMetaQueue| {
        return ERANGE, notice;
      }
      code := 0;
      var startAt := if first > pendingIndex then first else pendingIndex;
      if startAt > last {
        return;
      }
      var committed := GrantRange(startAt, last, peer);
      if committed == 0 {
        return;
      }
      PopUntil(committed);
      pendingIndex, lastCommittedIndex := committed + 1, committed;
      notice := Some(committed);
    }

    lemma BallotsMatch()
      requires Valid()
      ensures |ballots| == |pendingMetaQueue|
    {
    }

    method GrantOne(i: nat, peer: PeerId, hint: PosHint) returns (granted: bool, next: PosHint)
      requires Valid() && i < |pendingMetaQueue|
      modifies `ballots, pendingMetaQueue[i]
      ensures Valid() && ballots == old(ballots)[i := old(ballots)[i].Grant(peer)] && (granted <==> ballots[i].Granted())
    {
      hide Lists, Missing, IsQuorum;
      var ballot := pendingMetaQueue[i];
      next := ballot.Grant(peer, hint);
      ballots := ballots[i := ballot.view];
      granted := ballot.Granted();
    }

    /** The grant loop; the position hint of one ballot serves the next. */
    method GrantRange(startAt: nat, last: nat, peer: PeerId) returns (committed: nat)
      requires Valid() && 0 < pendingIndex <= startAt <= last < pendingIndex + |pendingMetaQueue|
      modifies `ballots, pendingMetaQueue
      ensures Valid()
      ensures var lo, hi := startAt - pendingIndex, last + 1 - pendingIndex;
              && ballots == BallotSpec.GrantRange(old(ballots), lo, hi, peer)
              && (var n := LastGranted(ballots, lo, hi); committed == if n == 0 then 0 else pendingIndex + n - 1)
    {
      hide Valid, LastGranted, BallotState.Granted, BallotSpec.GrantRange;
      BallotsMatch();
      GrantedNone(ballots, startAt - pendingIndex, peer);
      committed := 0;
      var index := startAt;
      var hint := NoHint;
      ghost var lo, was := startAt - pendingIndex, ballots;
      while index <= last
        invariant Valid() && startAt <= index <= last + 1 && |ballots| == |pendingMetaQueue|
        invariant ballots == BallotSpec.GrantRange(was, lo, index - pendingIndex, peer)
        invariant committed == 0 || committed >= pendingIndex
        invariant IsLastGranted(ballots, lo, index - pendingIndex,
                                if committed == 0 then 0 else committed + 1 - pendingIndex)
      {
        var granted;
        granted, hint := GrantOne(index - pendingIndex, peer, hint);
        GrantedOneMore(was, lo, index - pendingIndex, peer);
        if granted {
          committed := index;
        }
        index := index + 1;
      }
      LastGrantedIsGranted(ballots, lo, last + 1 - pendingIndex);
    }

    /** Drops every ballot up to `committed`, granted or not. */
    method PopUntil(committed: nat)
      requires Valid() && pendingIndex <= committed < pendingIndex + |pendingMetaQueue|
      modifies `pendingMetaQueue, `ballots
      ensures Valid() && ballots == old(ballots)[committed + 1 - pendingIndex..]
      ensures forall b | b in pendingMetaQueue :: b in old(pendingMetaQueue)
    {
      hide Lists, Missing;
      var index := pendingIndex;
      while index <= committed
        invariant pendingIndex <= index <= committed + 1 && |old(ballots)| == |old(pendingMetaQueue)|
        invariant ballots == old(ballots)[index - pendingIndex..]
        invariant pendingMetaQueue == old(pendingMetaQueue)[index - pendingIndex..]
      {
        pendingMetaQueue, ballots := pendingMetaQueue[1..], ballots[1..];
        index := index + 1;
      }
    }

    /** The leader steps down: every ballot is dropped, every waiting closure fails. */
    method ClearPendingTasks() returns (failed: seq<Closure>)
      modifies this, closureQueue
      ensures Valid() && View() == NoBox && lastCommittedIndex == old(lastCommittedIndex)
      ensures closureQueue.View() == Waiting(0, []) && failed == Closures(old(closureQueue.queue))
    {
      pendingMetaQueue, ballots, pendingIndex := [], [], 0;
      failed := closureQueue.Clear();
    }

    /** A candidate becomes leader; its own checks are preconditions here. */
    method ResetPendingIndex(newPendingIndex: nat)
      requires Valid() && View() == NoBox && newPendingIndex > lastCommittedIndex && closureQueue.queue == []
      modifies this, closureQueue
      ensures Valid() && View() == Box(newPendingIndex, []) && lastCommittedIndex == old(lastCommittedIndex)
      ensures closureQueue.View() == Waiting(newPendingIndex, [])
    {
      pendingIndex := newPendingIndex;
      closureQueue.ResetFirstIndex(newPendingIndex);
    }

    method AppendPendingTask(conf: Config, closure: Option<Closure>)
      requires Valid() && pendingIndex > 0
      modifies this, closureQueue
      ensures Valid() && View() == Box(old(pendingIndex), old(ballots) + [BallotState(conf, {})])
      ensures lastCommittedIndex == old(lastCommittedIndex)
      ensures closureQueue.View() == Waiting(old(closureQueue.firstIndex), old(closureQueue.queue) + [closure])
    {
      hide Lists, Missing;
      var ballot := new Ballot(conf);
      pendingMetaQueue, ballots := pendingMetaQueue + [ballot], ballots + [BallotState(conf, {})];
      closureQueue.AppendPendingClosure(closure);
    }

    /** A follower learns a committed index; a smaller one than before is refused. */
    method SetLastCommittedIndex(index: nat) returns (code: int, notice: Option<nat>)
      requires pendingIndex != 0 || pendingMetaQueue != [] ==> index < pendingIndex
      modifies `lastCommittedIndex
      ensures lastCommittedIndex ==
                if pendingIndex == 0 && pendingMetaQueue == [] then Max(old(lastCommittedIndex), index)
                else old(lastCommittedIndex)
      ensures notice == if lastCommittedIndex > old(lastCommittedIndex) then Some(index) else None
      ensures code == 0 <==> pendingIndex == 0 && pendingMetaQueue == [] && old(lastCommittedIndex) <= index
    {
      notice := None;
      if pendingIndex != 0 || pendingMetaQueue != [] {
        return -1, notice;
      }
      if index < lastCommittedIndex {
        return EINVAL, notice;
      }
      if index > lastCommittedIndex {
        lastCommittedIndex := index;
        notice := Some(index);
      }
      code := 0;
    }
  }
}
