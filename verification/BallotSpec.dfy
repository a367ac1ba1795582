/** What a ballot box computes, on values: one ballot per uncommitted index of the current leader. */
module BallotSpec {
  import opened Types
  import opened Quorum

  /** `granted` holds every peer whose grant was counted, repeated grants included once. */
  datatype BallotState = BallotState(conf: Config, granted: set<PeerId>) {
    function Grant(peer: PeerId): BallotState {
      this.(granted := granted + {peer})
    }

    predicate Granted() {
      IsQuorum(granted, conf)
    }
  }

  /** `pending` is the index of the first ballot, 0 while the node is not a leader. */
  datatype Box = Box(pending: nat, ballots: seq<BallotState>) {
    function At(index: nat): Option<BallotState> {
      if pending <= index < pending + |ballots| then Some(ballots[index - pending]) else None
    }
  }

  const NoBox := Box(0, [])

  /** The ballots after `peer` is granted at the positions in [lo, hi). */
  function GrantRange(ballots: seq<BallotState>, lo: nat, hi: nat, peer: PeerId): (r: seq<BallotState>)
    ensures |r| == |ballots|
  {
    seq(|ballots|, j requires 0 <= j < |ballots| => if lo <= j < hi then ballots[j].Grant(peer) else ballots[j])
  }

  lemma GrantedNone(ballots: seq<BallotState>, lo: nat, peer: PeerId)
    ensures GrantRange(ballots, lo, lo, peer) == ballots
  {
  }

  lemma GrantedOneMore(ballots: seq<BallotState>, lo: nat, i: nat, peer: PeerId)
    requires lo <= i < |ballots|
    ensures var r := GrantRange(ballots, lo, i, peer); GrantRange(ballots, lo, i + 1, peer) == r[i := r[i].Grant(peer)]
  {
  }

  /** One past the last granted position in [lo, hi), or 0 when there is none. */
  function LastGranted(ballots: seq<BallotState>, lo: nat, hi: nat): (n: nat)
    requires lo <= hi <= |ballots|
    ensures n <= hi
    decreases hi - lo
  {
    if lo == hi then 0
    else if ballots[hi - 1].Granted() then hi
    else LastGranted(ballots, lo, hi - 1)
  }

  datatype CommitResult = CommitResult(box: Box, committed: nat)

  /** `commit_at`: grants `peer` on [first, last]; everything up to the last granted ballot is committed.
      A committed index of 0 means that nothing was committed. */
  function CommitAt(box: Box, first: nat, last: nat, peer: PeerId): CommitResult {
    if box.pending == 0 || last < box.pending || last >= box.pending + |box.ballots| then
      CommitResult(box, 0)
    else
      var lo := if first > box.pending then first - box.pending else 0;
      var hi := last - box.pending;
      if lo > hi then CommitResult(box, 0)
      else
        var ballots := GrantRange(box.ballots, lo, hi + 1, peer);
        var n := LastGranted(ballots, lo, hi + 1);
        if n == 0 then CommitResult(Box(box.pending, ballots), 0)
        else CommitResult(Box(box.pending + n, ballots[n..]), box.pending + n - 1)
  }

  lemma {:induction false} LastGrantedIsGranted(ballots: seq<BallotState>, lo: nat, hi: nat)
    requires lo <= hi <= |ballots|
    ensures IsLastGranted(ballots, lo, hi, LastGranted(ballots, lo, hi))
    decreases hi - lo
  {
    if lo < hi && !ballots[hi - 1].Granted() {
      LastGrantedIsGranted(ballots, lo, hi - 1);
    }
  }

  /** `n` is one past the last granted position in [lo, hi), 0 when there is none. */
  ghost predicate IsLastGranted(ballots: seq<BallotState>, lo: nat, hi: nat, n: nat)
    requires hi <= |ballots|
  {
    if n == 0 then forall j | lo <= j < hi :: !ballots[j].Granted()
    else lo < n <= hi && ballots[n - 1].Granted() && forall j | n <= j < hi :: !ballots[j].Granted()
  }

  /** The ballots of a box after `commit_at` granted `peer` on [first, last]. */
  function Granting(box: Box, first: nat, last: nat, peer: PeerId): seq<BallotState>
    requires box.pending <= last
  {
    GrantRange(box.ballots, if first > box.pending then first - box.pending else 0, last - box.pending + 1, peer)
  }

  /** When `commit_at` has something to do. */
  predicate Counts(box: Box, first: nat, last: nat) {
    0 < box.pending <= last < box.pending + |box.ballots| && first <= last
  }

  /** The ballot of `index` is granted once `peer` counts. */
  predicate QuorumWith(box: Box, index: nat, peer: PeerId)
    requires box.pending <= index < box.pending + |box.ballots|
  {
    var b := box.ballots[index - box.pending];
    IsQuorum(b.granted + {peer}, b.conf)
  }

  /** `c` is the largest index from `first` to `last` that still has a ballot and, with `peer`, a quorum of its own
      configuration; 0 when there is none. */
  ghost predicate LargestQuorum(box: Box, first: nat, last: nat, peer: PeerId, c: nat)
    requires Counts(box, first, last)
  {
    var lo := Max(first, box.pending);
    && (c != 0 ==> lo <= c <= last && QuorumWith(box, c, peer))
    && forall i | lo <= i <= last && i > c :: !QuorumWith(box, i, peer)
  }

  /** What `commit_at` commits, told by the ballots before it: the largest index with a quorum, whatever the ballots below
      it hold, and nothing only if there is none. The ballots up to it go, those of the range behind it have the grant,
      all others stay as they are. */
  lemma CommitAtExactly(box: Box, first: nat, last: nat, peer: PeerId)
    ensures var r := CommitAt(box, first, last, peer);
            if !Counts(box, first, last) then r == CommitResult(box, 0)
            else && LargestQuorum(box, first, last, peer, r.committed)
                 && r.box.pending == (if r.committed == 0 then box.pending else r.committed + 1)
                 && forall i :: r.box.At(i) == BallotAfter(box, first, last, peer, i, r.committed)
  {
    hide IsQuorum, LastGranted, QuorumWith, BallotState.Granted;
    if Counts(box, first, last) {
      var lo := if first > box.pending then first - box.pending else 0;
      var ballots, n := Granting(box, first, last, peer), LastGranted(Granting(box, first, last, peer), lo, last - box.pending + 1);
      LastGrantedIsGranted(ballots, lo, last - box.pending + 1);
      GrantedIsLargest(box, first, last, peer, n);
    }
  }

  /** The ballot of an index after everything up to `committed` has gone. */
  function BallotAfter(box: Box, first: nat, last: nat, peer: PeerId, index: nat, committed: nat): Option<BallotState> {
    if index <= committed || box.At(index).None? then None
    else
      var b := box.At(index).value;
      Some(if first <= index <= last then BallotState(b.conf, b.granted + {peer}) else b)
  }

  lemma GrantedIsLargest(box: Box, first: nat, last: nat, peer: PeerId, n: nat)
    requires Counts(box, first, last)
    requires IsLastGranted(Granting(box, first, last, peer), if first > box.pending then first - box.pending else 0,
                           last - box.pending + 1, n)
    ensures LargestQuorum(box, first, last, peer, if n == 0 then 0 else box.pending + n - 1)
  {
    hide IsQuorum;
    var ballots := Granting(box, first, last, peer);
    forall i | Max(first, box.pending) <= i <= last
      ensures QuorumWith(box, i, peer) <==> ballots[i - box.pending].Granted()
    {
    }
  }

  lemma OneLargest(box: Box, first: nat, last: nat, peer: PeerId, c: nat)
    requires Counts(box, first, last) && LargestQuorum(box, first, last, peer, c)
    ensures LargestQuorum(box, first, last, peer, 0) <==> c == 0
  {
  }

  /** `commit_at` either leaves the box alone, or only grants, or drops the ballots up to one that is granted
      after `peer` was added to it. */
  lemma CommitAtCases(box: Box, first: nat, last: nat, peer: PeerId)
    ensures !Counts(box, first, last) ==> CommitAt(box, first, last, peer) == CommitResult(box, 0)
    ensures Counts(box, first, last) ==>
              var ballots := Granting(box, first, last, peer);
              var r := CommitAt(box, first, last, peer);
              || r == CommitResult(Box(box.pending, ballots), 0)
              || (exists n :: 0 < n <= |ballots| && CommitsFirst(box, ballots, peer, r, n))
  {
    hide BallotState.Granted, LastGranted;
    if Counts(box, first, last) {
      var ballots := Granting(box, first, last, peer);
      var lo := if first > box.pending then first - box.pending else 0;
      LastGrantedIsGranted(ballots, lo, last - box.pending + 1);
      var n := LastGranted(ballots, lo, last - box.pending + 1);
      assert n > 0 ==> CommitsFirst(box, ballots, peer, CommitAt(box, first, last, peer), n);
    }
  }

  /** The first `n` ballots are committed: the last of them is granted, `peer` included. */
  predicate CommitsFirst(box: Box, ballots: seq<BallotState>, peer: PeerId, r: CommitResult, n: nat)
    requires 0 < n <= |ballots|
  {
    && |ballots| == |box.ballots|
    && r == CommitResult(Box(box.pending + n, ballots[n..]), box.pending + n - 1)
    && ballots[n - 1] == box.ballots[n - 1].Grant(peer)
    && ballots[n - 1].Granted()
  }
}
