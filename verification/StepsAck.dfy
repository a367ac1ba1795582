/** Disk completions and acknowledgements keep the invariant. */
module StepsAck {
  import opened Types
  import opened Quorum
  import opened BallotSpec
  import opened NodeSpec
  import opened Protocol
  import opened Invariant
  import opened Completeness
  import opened Growth
  import opened StepsNode
  import opened StepsFollower

  // ---- the disk runs the next operation

  function DiskAdvance(nd: Node): Node
    requires nd.queue != []
  {
    nd.(durable := nd.queue[0].log, queue := nd.queue[1..])
  }

  lemma DiskAdvanceOk(h: Hist, nd: Node)
    requires NodeOk(h, nd.id, nd) && nd.queue != []
    ensures NodeOk(h, nd.id, DiskAdvance(nd)) && DiskAdvance(nd).Mem() == nd.Mem()
  {
    var r := DiskAdvance(nd);
    assert forall k | 0 <= k <= |r.queue| :: r.Version(k) == nd.Version(k + 1);
    forall k | 0 <= k <= |r.queue|
      ensures VersionOk(h, r, k)
    {
      assert VersionOk(h, nd, k + 1);
    }
    RecallDrop(h, nd.id, nd.durable, nd.queue, nd.term);
    assert PromisesOk(h, r);
    DiskAdvanceQueue(h, nd);
    if nd.role == Leader {
      DiskAdvanceLeader(h, nd);
    }
  }

  lemma DiskAdvanceQueue(h: Hist, nd: Node)
    requires QueueOk(h, nd) && DoneTermsOk(nd) && nd.queue != []
    ensures QueueOk(h, DiskAdvance(nd)) && DoneTermsOk(DiskAdvance(nd))
  {
    var r := DiskAdvance(nd);
    forall k | 0 <= k < |r.queue|
      ensures ItemOk(h, r, k)
    {
      assert ItemOk(h, nd, k + 1);
    }
    forall k, l | 0 <= k <= l < |r.queue|
      ensures ItemHeld(h, r, k, l)
    {
      assert ItemHeld(h, nd, k + 1, l + 1);
    }
    forall d | d in r.ready
      ensures ReadyOk(h, r, d)
    {
      assert ReadyOk(h, nd, d);
    }
  }

  lemma DiskAdvanceLeader(h: Hist, nd: Node)
    requires LeaderOk(h, nd) && nd.queue != []
    ensures LeaderOk(h, DiskAdvance(nd))
  {
    var r := DiskAdvance(nd);
    assert forall k | 0 <= k <= |r.queue| :: r.Version(k) == nd.Version(k + 1);
    forall j | 0 <= j < |r.box.ballots|
      ensures BallotOk(h, r, j)
    {
      assert BallotOk(h, nd, j);
    }
  }

  // ---- recording an acknowledgement

  lemma AddAck(h: Hist, key: Key, upto: nat) returns (g: Hist)
    requires HistOk(h) && key.term in h.el && upto <= |h.el[key.term].log|
    requires forall v | v in h.votes && v.peer == key.peer :: v.term <= key.term
    ensures g == RecordAck(h, key, upto)
    ensures HistOk(g) && Grows(h, g) && Acked(g, key.peer, key.term, upto)
    ensures forall m | m != key.peer :: SameFor(h, g, m)
  {
    g := RecordAck(h, key, upto);
    forall t | t in h.el
      ensures ElectionGrows(h, g, t)
    {
    }
    assert Grows(h, g);
    forall k | k in g.acks
      ensures AckOk(g, k)
    {
      if k in h.acks {
        assert AckOk(h, k);
      }
    }
    HistOkGrows(h, g);
  }

  /** Every log the node may find on its disk starts with the acknowledged entries. */
  ghost predicate AllHold(h: Hist, nd: Node, upto: nat) {
    forall k {:trigger nd.Version(k)} | 0 <= k <= |nd.queue| :: Held(h, nd.term, upto, nd.Version(k))
  }

  lemma AckVersions(h: Hist, g: Hist, nd: Node, upto: nat)
    requires HistOk(h) && Grows(h, g) && VersionsOk(h, nd) && AllHold(h, nd, upto)
    requires g == RecordAck(h, Key(nd.id, nd.term), upto)
    ensures VersionsOk(g, nd)
  {
    var key := Key(nd.id, nd.term);
    forall k | 0 <= k <= |nd.queue|
      ensures VersionOk(g, nd, k)
    {
      var v := nd.Version(k);
      assert VersionOk(h, nd, k);
      LogOkGrows(h, g, v);
      assert Held(h, nd.term, upto, v);
      forall a | a in g.acks && a.peer == nd.id && AckOk(g, a)
        ensures Keeps(g, AckedLog(g, a), v, nd.term + 1)
      {
        if a == key && g.acks[a] == upto {
          KeepsPrefix(g, AckedLog(g, a), v, nd.term + 1);
        } else {
          assert AckOk(h, a);
          assert AckedLog(g, a) == AckedLog(h, a);
          KeepsGrows(h, g, AckedLog(h, a), v, v, nd.term + 1, nd.term + 1);
        }
      }
      forall c | c in g.cands && c.cand == nd.id && c.term == nd.term + 1
        ensures Keeps(g, c.log, v, nd.term + 1)
      {
        KeepsGrows(h, g, c.log, v, v, nd.term + 1, nd.term + 1);
      }
    }
  }

  lemma AckNodeOk(h: Hist, g: Hist, nd: Node, upto: nat)
    requires HistOk(h) && Grows(h, g) && NodeOk(h, nd.id, nd) && AllHold(h, nd, upto) && nd.role != Candidate
    requires g == RecordAck(h, Key(nd.id, nd.term), upto)
    ensures NodeOk(g, nd.id, nd)
  {
    AckVersions(h, g, nd, upto);
    RecallGrows(h, g, nd.id, nd.durable, nd.queue, nd.term, nd.term);
    assert PromisesOk(g, nd);
    QueueOkGrows(h, g, nd);
    CoveredGrows(h, g, nd.Mem(), nd.Mem(), nd.commit, nd.term, nd.term);
    if nd.role == Leader {
      BoxOkGrows(h, g, nd);
    }
  }

  // ---- the ballot box counts an acknowledgement

  /** What `commit_at` does to ballots that know their peers: granted peers hold everything up to the index
      of the ballot, and a committed index has a quorum of its own configuration. */
  lemma GrantedBallots(h: Hist, nd: Node, first: nat, last: nat, peer: PeerId)
    requires nd.term in h.el && BoxOk(h, nd) && Acked(h, peer, nd.term, last)
    requires Counts(nd.box, first, last)
    ensures BoxOk(h, nd.(box := Box(nd.box.pending, Granting(nd.box, first, last, peer))))
  {
    var ballots := Granting(nd.box, first, last, peer);
    var r := nd.(box := Box(nd.box.pending, ballots));
    forall j | 0 <= j < |ballots|
      ensures BallotOk(h, r, j)
    {
      assert BallotOk(h, nd, j);
    }
  }

  /** Dropping the first `n` ballots, the last of which is granted, commits everything they stood for. */
  lemma DropBallots(h: Hist, nd: Node, n: nat, quorum: set<PeerId>) returns (c: Commit)
    requires nd.term in h.el && BoxOk(h, nd) && 0 < n <= |nd.box.ballots|
    requires nd.box.ballots[n - 1].Granted() && quorum == nd.box.ballots[n - 1].granted
    ensures c == Commit(nd.term, nd.box.pending + n - 1, quorum)
    ensures CommitOk(h, c)
    ensures BoxOk(h, nd.(box := Box(nd.box.pending + n, nd.box.ballots[n..]), commit := c.upto))
  {
    c := Commit(nd.term, nd.box.pending + n - 1, quorum);
    assert BallotOk(h, nd, n - 1);
    var r := nd.(box := Box(nd.box.pending + n, nd.box.ballots[n..]), commit := c.upto);
    forall j | 0 <= j < |r.box.ballots|
      ensures BallotOk(h, r, j)
    {
      assert BallotOk(h, nd, n + j);
    }
  }

  lemma AddCommit(h: Hist, c: Commit) returns (g: Hist)
    requires HistOk(h) && CommitOk(h, c)
    ensures g == h.(commits := h.commits + {c})
    ensures HistOk(g) && Grows(h, g)
    ensures forall m | m != h.el[c.term].leader :: SameFor(h, g, m)
  {
    g := h.(commits := h.commits + {c});
    forall t | t in h.el
      ensures ElectionGrows(h, g, t)
    {
    }
    assert Grows(h, g);
    CommitOkGrows(h, g, c);
    forall k | k in g.acks
      ensures AckOk(g, k)
    {
      assert AckOk(h, k);
    }
    HistOkGrows(h, g);
  }

  /** The leader with another ballot box and commit index, both still in order. */
  lemma BoxChangeOk(h: Hist, g: Hist, nd: Node, box: Box, commit: nat)
    requires HistOk(h) && NodeOk(h, nd.id, nd) && nd.role == Leader && Grows(h, g)
    requires g == h.(commits := g.commits) && nd.commit <= commit
    requires BoxOk(h, nd.(box := box, commit := commit))
    requires Covered(g, nd.Mem(), commit, nd.term)
    requires forall c | c in g.commits && c.term == nd.term :: c.upto <= commit
    ensures NodeOk(g, nd.id, nd.(box := box, commit := commit))
  {
    hide Keeps, LogOk, RecallOk, TermsBelow, Covered, ConfOf;
    var r := nd.(box := box, commit := commit);
    assert forall k | 0 <= k <= |nd.queue| :: r.Version(k) == nd.Version(k);
    forall k | 0 <= k <= |r.queue|
      ensures VersionOk(g, r, k)
    {
      VersionHolds(h, nd, k);
      HoldsPromisesGrows(h, g, nd.id, nd.Version(k), nd.term);
    }
    RecallSame(h, g, nd.id, nd.durable, nd.queue, nd.term, nd.term);
    assert PromisesOk(g, r);
    QueueOkGrows(h, g, nd);
    QueueOkSame(g, nd, r);
    BoxOkGrows(h, g, r);
  }

  /** An acknowledgement for an index that is still pending is backed by the peer's disk. */
  lemma PendingIsAcked(h: Hist, nd: Node, last: nat, peer: PeerId)
    requires NodeOk(h, nd.id, nd) && nd.role == Leader && RespOk(h, peer, nd.term, last) && nd.box.pending <= last
    ensures nd.term in h.el && BoxOk(h, nd) && Acked(h, peer, nd.term, last)
  {
  }

  /** Committing up to the last of `n` ballots. */
  lemma CommitBallots(h: Hist, nd: Node, ballots: seq<BallotState>, n: nat) returns (g: Hist)
    requires HistOk(h) && NodeOk(h, nd.id, nd) && nd.role == Leader && |ballots| == |nd.box.ballots|
    requires nd.term in h.el && BoxOk(h, nd.(box := Box(nd.box.pending, ballots)))
    requires 0 < n <= |ballots| && ballots[n - 1].Granted()
    ensures g == h.(commits := h.commits + {Commit(nd.term, nd.box.pending + n - 1, ballots[n - 1].granted)})
    ensures HistOk(g) && Grows(h, g)
    ensures forall m | m != nd.id :: SameFor(h, g, m)
    ensures NodeOk(g, nd.id, nd.(box := Box(nd.box.pending + n, ballots[n..]), commit := nd.box.pending + n - 1))
  {
    hide NodeOk, HistOk, Grows, SameFor, BoxOk, CommitOk, Covered, IsQuorum, BallotState.Granted;
    var mid := nd.(box := Box(nd.box.pending, ballots));
    var c := DropBallots(h, mid, n, ballots[n - 1].granted);
    g := AddCommit(h, c);
    NewCommitFacts(h, g, nd, c);
    BoxChangeOk(h, g, nd, Box(nd.box.pending + n, ballots[n..]), c.upto);
  }

  /** A leader's new commit covers its own log up to it. */
  lemma NewCommitFacts(h: Hist, g: Hist, nd: Node, c: Commit)
    requires NodeOk(h, nd.id, nd) && nd.role == Leader && c.term == nd.term && CommitOk(h, c)
    requires g == h.(commits := h.commits + {c}) && nd.box.pending <= c.upto
    ensures nd.term in h.el && h.el[nd.term].leader == nd.id && nd.commit <= c.upto
    ensures Covered(g, nd.Mem(), c.upto, nd.term)
    ensures forall d | d in g.commits && d.term == nd.term :: d.upto <= c.upto
  {
    hide VersionsOk, RecallOk, PromisesOk, QueueOk, ConfOf, IsQuorum;
    assert CoveredBy(g, nd.Mem(), c.upto, nd.term, c);
  }

  /** The safety of `commit_at`: a commit it makes has a quorum of the configuration of its last entry, each
      of whose members holds everything up to that entry, the skipped ballots included. */
  lemma CommitOnOk(h: Hist, nd: Node, first: nat, last: nat, peer: PeerId) returns (g: Hist)
    requires HistOk(h) && NodeOk(h, nd.id, nd) && nd.role == Leader && RespOk(h, peer, nd.term, last)
    ensures g == RecordCommit(h, nd, first, last, peer)
    ensures HistOk(g) && Grows(h, g)
    ensures forall m | m != nd.id :: SameFor(h, g, m)
    ensures NodeOk(g, nd.id, CommitOn(nd, first, last, peer))
  {
    hide HistOk, NodeOk, Grows, SameFor, BoxOk, RespOk, CommitAt, Granting, Covered;
    CommitAtCases(nd.box, first, last, peer);
    if Counts(nd.box, first, last) {
      PendingIsAcked(h, nd, last, peer);
      GrantedBallots(h, nd, first, last, peer);
      var ballots := Granting(nd.box, first, last, peer);
      var r := CommitAt(nd.box, first, last, peer);
      if r == CommitResult(Box(nd.box.pending, ballots), 0) {
        g := h;
        NothingNew(h);
        CoveredNow(h, nd);
        BoxChangeOk(h, h, nd, Box(nd.box.pending, ballots), nd.commit);
      } else {
        var n :| 0 < n <= |ballots| && CommitsFirst(nd.box, ballots, peer, r, n);
        g := CommitBallots(h, nd, ballots, n);
      }
    } else {
      g := h;
      NothingNew(h);
    }
  }

  lemma CoveredNow(h: Hist, nd: Node)
    requires NodeOk(h, nd.id, nd) && nd.role == Leader
    ensures Covered(h, nd.Mem(), nd.commit, nd.term)
    ensures forall c | c in h.commits && c.term == nd.term :: c.upto <= nd.commit
  {
  }

  lemma AppendRespStepOk(s: State, step: Step)
    requires Inv(s) && Enabled(s, step) && step.AppendRespStep?
    ensures Preserves(s, step)
  {
    assert NodeOk(s.h, step.n, s.nodes[step.n]) && MessageOk(s.h, step.m);
    var g := CommitOnOk(s.h, s.nodes[step.n], step.first, step.m.upto, step.m.from);
  }

  // ---- closures

  /** A follower's closure of the current term: what it acknowledges is on the disk and stays there. */
  lemma FollowerDoneHeld(h: Hist, nd: Node)
    requires NodeOk(h, nd.id, nd) && nd.queue != []
    requires nd.queue[0].done.FollowerDone? && nd.queue[0].done.term == nd.term
    ensures nd.role == Follower && AllHold(h, DiskAdvance(nd), nd.queue[0].done.upto)
    ensures nd.term in h.el && nd.queue[0].done.upto <= |h.el[nd.term].log|
    ensures Covered(h, nd.Mem(), nd.queue[0].done.commit, nd.term)
    ensures forall v | v in h.votes && v.peer == nd.id :: v.term <= nd.term
  {
    var done, r := nd.queue[0].done, DiskAdvance(nd);
    assert ItemOk(h, nd, 0);
    forall k | 0 <= k <= |r.queue|
      ensures Held(h, nd.term, done.upto, r.Version(k))
    {
      assert ItemHeld(h, nd, 0, k);
      assert r.Version(k) == nd.queue[k].log;
    }
    assert r.Version(|r.queue|) == nd.Mem();
    var log := h.el[nd.term].log;
    assert nd.Mem()[..done.commit] == nd.Mem()[..done.upto][..done.commit] == log[..done.commit];
    GrowsReflexive(h);
    CoveredGrows(h, h, log, nd.Mem(), done.commit, nd.term, nd.term);
  }

  lemma FollowerDoneStep(h: Hist, nd: Node) returns (g: Hist)
    requires HistOk(h) && NodeOk(h, nd.id, nd) && nd.queue != []
    requires nd.queue[0].done.FollowerDone? && nd.queue[0].done.term == nd.term
    ensures g == HistAfterDone(h, nd, nd.queue[0].done)
    ensures HistOk(g) && Grows(h, g)
    ensures forall m | m != nd.id :: SameFor(h, g, m)
    ensures NodeOk(g, nd.id, DiskStep(nd))
    ensures RespOk(g, nd.id, nd.term, nd.queue[0].done.upto)
  {
    hide HistOk, NodeOk, Grows, SameFor, Covered, AllHold;
    var done, r := nd.queue[0].done, DiskAdvance(nd);
    FollowerDoneHeld(h, nd);
    DiskAdvanceOk(h, nd);
    g := AddAck(h, Key(nd.id, nd.term), done.upto);
    AckNodeOk(h, g, r, done.upto);
    CoveredGrows(h, g, nd.Mem(), nd.Mem(), done.commit, nd.term, nd.term);
    SetLastCommittedOk(g, r, done.commit);
  }

  lemma LeaderDoneHeld(h: Hist, nd: Node)
    requires NodeOk(h, nd.id, nd) && nd.queue != [] && nd.role == Leader
    ensures nd.queue[0].done.LeaderDone? && AllHold(h, DiskAdvance(nd), nd.queue[0].done.last)
    ensures nd.term in h.el && nd.queue[0].done.last <= |h.el[nd.term].log|
    ensures forall v | v in h.votes && v.peer == nd.id :: v.term <= nd.term
  {
    var r := DiskAdvance(nd);
    assert nd.Version(1) <= nd.Mem() && nd.Version(1) == nd.queue[0].log;
    forall k | 0 <= k <= |r.queue|
      ensures Held(h, nd.term, nd.queue[0].done.last, r.Version(k))
    {
      assert r.Version(k) == nd.Version(k + 1);
      assert nd.Version(k + 1) <= nd.Mem();
      assert |nd.Version(1)| <= |nd.Version(k + 1)|;
    }
  }

  lemma LeaderDoneStep(h: Hist, nd: Node) returns (g: Hist)
    requires HistOk(h) && NodeOk(h, nd.id, nd) && nd.queue != [] && nd.role == Leader
    ensures g == HistAfterDone(h, nd, nd.queue[0].done)
    ensures HistOk(g) && Grows(h, g)
    ensures forall m | m != nd.id :: SameFor(h, g, m)
    ensures NodeOk(g, nd.id, DiskStep(nd)) && nd.queue[0].done.LeaderDone?
  {
    hide HistOk, NodeOk, Grows, SameFor, AllHold, CommitAt;
    var done, r := nd.queue[0].done, DiskAdvance(nd);
    LeaderDoneHeld(h, nd);
    DiskAdvanceOk(h, nd);
    var h1 := AddAck(h, Key(nd.id, nd.term), done.last);
    AckNodeOk(h, h1, r, done.last);
    assert RespOk(h1, nd.id, nd.term, done.last);
    g := CommitOnOk(h1, r, done.first, done.last, nd.id);
    GrowsTransitive(h, h1, g);
    forall m | m != nd.id
      ensures SameFor(h, g, m)
    {
      SameForTransitive(h, h1, g, m);
    }
  }

  /** The closures that have nothing to say: truncations, and answers to a term that is over. */
  lemma SilentDone(h: Hist, nd: Node)
    requires NodeOk(h, nd.id, nd) && nd.queue != [] && nd.role != Leader
    requires nd.queue[0].done.FollowerDone? ==> nd.queue[0].done.term != nd.term
    ensures DiskStep(nd) == DiskAdvance(nd) && HistAfterDone(h, nd, nd.queue[0].done) == h
    ensures Replies(nd, nd.queue[0].done) == {}
  {
  }

  lemma DiskStepStepOk(s: State, step: Step)
    requires Inv(s) && Enabled(s, step) && step.DiskStepStep?
    ensures Preserves(s, step)
  {
    hide Inv, NodeOk, HistOk, Grows, SameFor, RespOk, DiskStep, HistAfterDone;
    var nd, h := s.nodes[step.n], s.h;
    NodeFacts(s, step.n);
    var done := nd.queue[0].done;
    if nd.role == Leader {
      var g := LeaderDoneStep(h, nd);
    } else if done.FollowerDone? && done.term == nd.term {
      var g := FollowerDoneStep(h, nd);
      assert MessageOk(g, AppendResp(nd.term, nd.id, done.upto));
    } else {
      SilentDone(h, nd);
      DiskAdvanceOk(h, nd);
      NothingNew(h);
    }
  }

  lemma RemoveReadyOk(h: Hist, nd: Node, done: Done)
    requires NodeOk(h, nd.id, nd)
    ensures NodeOk(h, nd.id, nd.(ready := nd.ready - {done}))
  {
    hide Keeps, LogOk, RecallOk, TermsBelow, Covered;
    var r := nd.(ready := nd.ready - {done});
    assert forall k | 0 <= k <= |nd.queue| :: r.Version(k) == nd.Version(k);
    forall k | 0 <= k <= |r.queue|
      ensures VersionOk(h, r, k)
    {
      assert VersionOk(h, nd, k);
    }
    assert PromisesOk(h, r);
    QueueOkSame(h, nd, r);
    if nd.role == Leader {
      forall j | 0 <= j < |r.box.ballots|
        ensures BallotOk(h, r, j)
      {
        assert BallotOk(h, nd, j);
      }
    }
  }

  lemma ReadyHeld(h: Hist, nd: Node, done: Done)
    requires NodeOk(h, nd.id, nd) && done in nd.ready
    ensures done.FollowerDone?
    ensures done.term == nd.term ==>
              && nd.role == Follower && Covered(h, nd.Mem(), done.commit, nd.term)
              && RespOk(h, nd.id, nd.term, done.upto)
  {
    assert ReadyOk(h, nd, done);
    if done.term == nd.term {
      var log := h.el[nd.term].log;
      assert nd.Mem()[..done.commit] == nd.Mem()[..done.upto][..done.commit] == log[..done.commit];
      GrowsReflexive(h);
      CoveredGrows(h, h, log, nd.Mem(), done.commit, nd.term, nd.term);
    }
  }

  lemma ReadyStepOk(s: State, step: Step)
    requires Inv(s) && Enabled(s, step) && step.ReadyStep?
    ensures Preserves(s, step)
  {
    hide Inv, NodeOk, HistOk, Grows, SameFor, RespOk, Covered;
    var nd, h := s.nodes[step.n], s.h;
    NodeFacts(s, step.n);
    NothingNew(h);
    ReadyHeld(h, nd, step.done);
    RemoveReadyOk(h, nd, step.done);
    if step.done.term == nd.term {
      SetLastCommittedOk(h, nd.(ready := nd.ready - {step.done}), step.done.commit);
      assert MessageOk(h, AppendResp(nd.term, nd.id, step.done.upto));
    }
  }
}
