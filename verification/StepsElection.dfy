/** The steps of an election keep the invariant. */
module StepsElection {
  import opened Types
  import opened Quorum
  import opened BallotSpec
  import opened NodeSpec
  import opened Protocol
  import opened Invariant
  import opened Completeness
  import opened Growth
  import opened StepsNode

  // ---- announcing a candidacy

  lemma AddCandidacy(h: Hist, c: Candidacy) returns (g: Hist)
    requires HistOk(h) && CandidacyOk(h, c)
    ensures g == h.(cands := h.cands + {c})
    ensures HistOk(g) && Grows(h, g)
    ensures forall m | m != c.cand :: SameFor(h, g, m)
  {
    g := h.(cands := h.cands + {c});
    assert Grows(h, g) by { GrowsReflexive(h); assert forall t | t in h.el :: ElectionGrows(h, h, t) ==> ElectionGrows(h, g, t); }
    LogOkGrows(h, g, c.log);
    forall k | k in g.acks
      ensures AckOk(g, k)
    {
      assert AckOk(h, k);
    }
    HistOkGrows(h, g);
  }

  /** Whatever log a node claims, its own or one it once had, it keeps. */
  lemma ClaimFacts(h: Hist, nd: Node, claim: Log)
    requires NodeOk(h, nd.id, nd) && nd.queue == [] && Claims(h, nd, claim)
    ensures Keeps(h, claim, nd.durable, nd.term + 1) && LastId(claim).AtLeast(LastId(nd.durable))
    ensures CandidacyOk(h, Candidacy(nd.term + 1, nd.id, claim))
  {
    if claim == nd.durable {
      VersionHolds(h, nd, 0);
      KeepsPrefix(h, claim, nd.durable, nd.term + 1);
    } else {
      assert HoldingOk(h, Holding(nd.id, claim), nd.durable, nd.queue, nd.term);
      assert VersionAt(nd.durable, nd.queue, 0) == nd.durable;
    }
  }

  /** After announcing a candidacy the node's logs still hold everything it promised. */
  lemma CandidacyHeld(h: Hist, g: Hist, nd: Node, c: Candidacy)
    requires HistOk(h) && Grows(h, g) && g == h.(cands := h.cands + {c})
    requires NodeOk(h, nd.id, nd) && nd.queue == []
    requires c.term == nd.term + 1 && c.cand == nd.id && Keeps(h, c.log, nd.durable, nd.term + 1)
    ensures HoldsPromises(g, nd.id, nd.durable, nd.term)
  {
    assert VersionOk(h, nd, 0);
    LogOkGrows(h, g, nd.durable);
    forall a | a in g.acks && a.peer == nd.id && AckOk(g, a)
      ensures Keeps(g, AckedLog(g, a), nd.durable, nd.term + 1)
    {
      assert AckOk(h, a);
      KeepsGrows(h, g, AckedLog(h, a), nd.durable, nd.durable, nd.term + 1, nd.term + 1);
    }
    forall d | d in g.cands && d.cand == nd.id && d.term == nd.term + 1
      ensures Keeps(g, d.log, nd.durable, nd.term + 1)
    {
      KeepsGrows(h, g, d.log, nd.durable, nd.durable, nd.term + 1, nd.term + 1);
    }
  }

  lemma ElectCrashStepOk(s: State, step: Step)
    requires Inv(s) && Enabled(s, step) && step.ElectCrashStep?
    ensures Preserves(s, step)
  {
    hide Inv, NodeOk, HistOk, Grows, SameFor, HoldsPromises, LogOk;
    var nd, h := s.nodes[step.n], s.h;
    NodeFacts(s, step.n);
    var c := Candidacy(nd.term + 1, step.n, step.claim);
    ClaimFacts(h, nd, step.claim);
    var g := AddCandidacy(h, c);
    CandidacyHeld(h, g, nd, c);
    RestartedCandidateOk(h, g, nd, c);
    assert MessageOk(g, VoteReq(nd.term + 1, step.n, LastId(step.claim))) by { assert c in g.cands; }
  }

  /** The node that announced a candidacy but stopped before its term and vote reached the disk. */
  lemma RestartedCandidateOk(h: Hist, g: Hist, nd: Node, c: Candidacy)
    requires NodeOk(h, nd.id, nd) && nd.queue == [] && c.term == nd.term + 1 && c.cand == nd.id
    requires Grows(h, g) && g == h.(cands := h.cands + {c}) && HoldsPromises(g, nd.id, nd.durable, nd.term)
    ensures NodeOk(g, nd.id, Restart(nd, nd.durable))
  {
    var r := Restart(nd, nd.durable);
    RecallGrows(h, g, nd.id, nd.durable, [], nd.term, nd.term);
    assert VersionOk(g, r, 0);
    assert PromisesOk(g, r);
  }

  // ---- votes

  lemma AddVote(h: Hist, key: Key, v: Vote) returns (g: Hist)
    requires HistOk(h) && key !in h.votes && v.late == (key.term in h.el)
    requires LogOk(h, v.voterLog) && TermsBelow(v.voterLog, key.term)
    requires Candidacy(key.term, v.cand, v.candLog) in h.cands
    requires LastId(v.candLog).AtLeast(LastId(v.voterLog))
    requires forall a {:trigger AckOk(h, a)} | a in h.acks && a.peer == key.peer && a.term < key.term && AckOk(h, a) ::
               Keeps(h, AckedLog(h, a), v.voterLog, key.term + 1)
    ensures g == h.(votes := h.votes[key := v])
    ensures HistOk(g) && Grows(h, g)
    ensures forall m | m != key.peer :: SameFor(h, g, m)
  {
    g := h.(votes := h.votes[key := v]);
    assert Grows(h, g) by { GrowsReflexive(h); assert forall t | t in h.el :: ElectionGrows(h, h, t) ==> ElectionGrows(h, g, t); }
    var c := Candidacy(key.term, v.cand, v.candLog);
    assert CandidacyOk(h, c);
    LogOkGrows(h, g, v.voterLog);
    LogOkGrows(h, g, v.candLog);
    forall a | a in g.acks && a.peer == key.peer && a.term < key.term && AckOk(g, a)
      ensures Keeps(g, AckedLog(g, a), v.voterLog, if v.late then key.term + 1 else key.term)
    {
      assert AckOk(h, a);
      KeepsGrows(h, g, AckedLog(h, a), v.voterLog, v.voterLog, key.term + 1, key.term + 1);
      if !v.late {
        KeepsBeforeElection(g, AckedLog(g, a), v.voterLog, key.term);
      }
    }
    forall k | k in g.acks
      ensures AckOk(g, k)
    {
      assert AckOk(h, k);
    }
    HistOkGrows(h, g);
  }

  /** While a term has no leader, nothing can have been lost to the leader of that term. */
  lemma KeepsBeforeElection(h: Hist, a: Log, b: Log, term: nat)
    requires Keeps(h, a, b, term + 1) && term !in h.el
    ensures Keeps(h, a, b, term)
  {
    forall k | 0 < k <= |a|
      ensures KeepsAt(h, a, b, term, k)
    {
      assert KeepsAt(h, a, b, term + 1, k);
    }
  }

  lemma ElectSelfStepOk(s: State, step: Step)
    requires Inv(s) && Enabled(s, step) && step.ElectSelfStep?
    ensures Preserves(s, step)
  {
    hide Inv, NodeOk, HistOk, Grows, SameFor, HoldsPromises, LogOk;
    var nd, h := s.nodes[step.n], s.h;
    NodeFacts(s, step.n);
    var t := nd.term + 1;
    var c := Candidacy(t, step.n, step.claim);
    ClaimFacts(h, nd, step.claim);
    var h1 := AddCandidacy(h, c);
    CandidacyHeld(h, h1, nd, c);
    var g := VoteForSelf(h, h1, nd, c);
    GrowsTransitive(h, h1, g);
    forall m | m in s.nodes && m != step.n
      ensures SameFor(h, g, m)
    {
      SameForTransitive(h, h1, g, m);
    }
    ElectedSelfOk(h, h1, g, nd, c);
    assert MessageOk(g, VoteReq(t, step.n, LastId(step.claim))) by { assert c in g.cands; }
  }

  /** The vote of a candidate for itself, in a term it has not been in. */
  lemma VoteForSelf(h: Hist, h1: Hist, nd: Node, c: Candidacy) returns (g: Hist)
    requires NodeOk(h, nd.id, nd) && c.term == nd.term + 1 && c.cand == nd.id
    requires LastId(c.log).AtLeast(LastId(nd.durable))
    requires h1 == h.(cands := h.cands + {c}) && HistOk(h1) && HoldsPromises(h1, nd.id, nd.durable, nd.term)
    ensures g == h1.(votes := h1.votes[Key(nd.id, c.term) := Vote(nd.id, nd.durable, c.log, c.term in h.el)])
    ensures Key(nd.id, c.term) !in h.votes && HistOk(g) && Grows(h1, g)
    ensures forall m | m != nd.id :: SameFor(h1, g, m)
  {
    var t := c.term;
    forall a | a in h1.acks && a.peer == nd.id && a.term < t && AckOk(h1, a)
      ensures Keeps(h1, AckedLog(h1, a), nd.durable, t + 1)
    {
      KeepsGrows(h1, h1, AckedLog(h1, a), nd.durable, nd.durable, t, t + 1) by { GrowsReflexive(h1); }
    }
    g := AddVote(h1, Key(nd.id, t), Vote(nd.id, nd.durable, c.log, t in h.el));
  }

  /** The candidate after `ElectSelf`. */
  lemma ElectedSelfOk(h: Hist, h1: Hist, g: Hist, nd: Node, c: Candidacy)
    requires HistOk(h) && HistOk(h1) && Grows(h, g) && Grows(h1, g) && NodeOk(h, nd.id, nd)
    requires nd.role != Leader && nd.queue == [] && c.term == nd.term + 1 && c.cand == nd.id
    requires HoldsPromises(h1, nd.id, nd.durable, nd.term)
    requires h1 == h.(cands := h.cands + {c})
    requires VoteFor(g, nd.id, nd.term + 1, nd.id)
    requires g == h1.(votes := h1.votes[Key(nd.id, nd.term + 1) := g.votes[Key(nd.id, nd.term + 1)]])
    ensures NodeOk(g, nd.id, ElectSelf(nd))
  {
    hide Keeps, LogOk, RecallOk, ConfOf;
    var r := ElectSelf(nd);
    HoldsPromisesGrows(h1, g, nd.id, nd.durable, nd.term);
    HoldsPromisesLater(g, nd.id, nd.durable, nd.term, r.term);
    assert VersionOk(g, r, 0);
    RecallSame(h, g, nd.id, nd.durable, nd.queue, nd.term, r.term);
    assert PromisesOk(g, r);
    CoveredGrows(h, g, nd.durable, nd.durable, nd.commit, nd.term, r.term);
    QueueOkLater(g, nd, r);
  }

  // ---- answering a vote request

  lemma VoterTermsBelow(h: Hist, log: Log, candLog: Log, term: nat)
    requires HistOk(h) && LogOk(h, log) && TermsBelow(candLog, term)
    requires LastId(candLog).AtLeast(LastId(log))
    ensures TermsBelow(log, term)
  {
    forall i | 0 <= i < |log|
      ensures log[i].term < term
    {
      TermsSorted(h, log, i, |log| - 1);
    }
  }

  /** Recording its vote keeps the voter in order. */
  lemma VotedOk(h: Hist, g: Hist, nd: Node, v: Vote)
    requires HistOk(h) && NodeOk(h, nd.id, nd) && Grows(h, g)
    requires nd.voted.None? && nd.role == Follower
    requires g == h.(votes := h.votes[Key(nd.id, nd.term) := v])
    ensures NodeOk(g, nd.id, nd.(voted := Some(v.cand)))
  {
    var r := nd.(voted := Some(v.cand));
    forall k | 0 <= k <= |r.queue|
      ensures VersionOk(g, r, k)
    {
      VersionHolds(h, nd, k);
      HoldsPromisesGrows(h, g, nd.id, nd.Version(k), nd.term);
      assert r.Version(k) == nd.Version(k);
    }
    RecallGrows(h, g, nd.id, nd.durable, nd.queue, nd.term, nd.term);
    assert PromisesOk(g, r);
    QueueOkGrows(h, g, nd);
    QueueOkSame(g, nd, r);
    CoveredGrows(h, g, nd.Mem(), nd.Mem(), nd.commit, nd.term, nd.term);
  }

  /** A voter still has, or has seen lost, whatever it acknowledged before. */
  lemma VoterKeeps(h: Hist, nd: Node, term: nat)
    requires NodeOk(h, nd.id, nd) && nd.term <= term
    ensures forall a {:trigger AckOk(h, a)} | a in h.acks && a.peer == nd.id && a.term < term && AckOk(h, a) ::
              Keeps(h, AckedLog(h, a), nd.durable, term + 1)
  {
    assert VersionOk(h, nd, 0);
    GrowsReflexive(h);
    forall a | a in h.acks && a.peer == nd.id && a.term < term && AckOk(h, a)
      ensures Keeps(h, AckedLog(h, a), nd.durable, term + 1)
    {
      KeepsGrows(h, h, AckedLog(h, a), nd.durable, nd.durable, nd.term + 1, term + 1);
    }
  }

  lemma VoterFacts(h: Hist, nd: Node, term: nat, cand: PeerId, candLog: Log)
    requires HistOk(h) && NodeOk(h, nd.id, nd) && nd.term <= term && (nd.term == term ==> nd.voted.None?)
    requires Candidacy(term, cand, candLog) in h.cands && LastId(candLog).AtLeast(LastId(nd.durable))
    ensures Key(nd.id, term) !in h.votes && LogOk(h, nd.durable) && TermsBelow(nd.durable, term)
  {
    assert CandidacyOk(h, Candidacy(term, cand, candLog));
    assert VersionOk(h, nd, 0);
    VoterTermsBelow(h, nd.durable, candLog, term);
  }

  /** A vote for a log at least as up to date as the voter's. */
  lemma GrantVote(h: Hist, nd: Node, term: nat, cand: PeerId, candLog: Log) returns (g: Hist)
    requires HistOk(h) && NodeOk(h, nd.id, nd) && nd.term <= term
    requires Candidacy(term, cand, candLog) in h.cands
    requires LastId(candLog).AtLeast(LastId(nd.durable))
    requires nd.term == term ==> nd.voted.None?
    ensures g == h.(votes := h.votes[Key(nd.id, term) := Vote(cand, nd.durable, candLog, term in h.el)])
    ensures Key(nd.id, term) !in h.votes && HistOk(g) && Grows(h, g)
    ensures forall m | m != nd.id :: SameFor(h, g, m)
    ensures NodeOk(g, nd.id, StepDown(nd, term).(voted := Some(cand)))
  {
    hide NodeOk, HistOk, Grows, SameFor, Keeps, AckOk;
    var key := Key(nd.id, term);
    VoterFacts(h, nd, term, cand, candLog);
    VoterKeeps(h, nd, term);
    g := AddVote(h, key, Vote(cand, nd.durable, candLog, term in h.el));
    StepDownOk(h, nd.id, nd, term);
    VotedOk(h, g, StepDown(nd, term), g.votes[key]);
  }

  lemma AlreadyVoted(h: Hist, nd: Node)
    requires NodeOk(h, nd.id, nd)
    ensures nd.voted.Some? ==> VoteFor(h, nd.id, nd.term, nd.voted.value)
  {
  }

  lemma VoteReqStepOk(s: State, step: Step)
    requires Inv(s) && Enabled(s, step) && step.VoteReqStep?
    ensures Preserves(s, step)
  {
    hide Inv, NodeOk, HistOk, Grows, SameFor;
    var nd, h, m := s.nodes[step.n], s.h, step.m;
    NodeFacts(s, step.n);
    NothingNew(h);
    StepDownOk(h, step.n, nd, m.term);
    AlreadyVoted(h, nd);
    if m.last.AtLeast(step.own) && (nd.term == m.term ==> nd.voted.None?) {
      var g := GrantVote(h, nd, m.term, m.cand, step.candLog);
      assert HandleVoteReq(nd, m.term, m.cand, m.last, step.own) == StepDown(nd, m.term).(voted := Some(m.cand));
      assert MessageOk(g, VoteResp(m.term, step.n, m.cand));
    } else {
      assert HandleVoteReq(nd, m.term, m.cand, m.last, step.own) == if m.term > nd.term then StepDown(nd, m.term) else nd;
    }
  }

  // ---- counting votes

  lemma VoteRespStepOk(s: State, step: Step)
    requires Inv(s) && Enabled(s, step) && step.VoteRespStep?
    ensures Preserves(s, step)
  {
    assert MessageOk(s.h, step.m);
    hide Inv, NodeOk, HistOk, Grows, SameFor;
    NodeFacts(s, step.n);
    NothingNew(s.h);
    CountVote(s.h, s.nodes[step.n], step.m.voter);
  }

  lemma CountVote(h: Hist, nd: Node, voter: PeerId)
    requires NodeOk(h, nd.id, nd) && nd.role == Candidate && VoteFor(h, voter, nd.term, nd.id)
    ensures NodeOk(h, nd.id, HandleVoteResp(nd, voter))
  {
    var r := HandleVoteResp(nd, voter);
    assert VersionOk(h, nd, 0);
    assert VersionOk(h, r, 0);
    assert PromisesOk(h, r);
    assert CandidateOk(h, r);
    QueueOkSame(h, nd, r);
  }

  // ---- becoming leader

  /** A candidate with a quorum of votes has won, and nobody won this term before. */
  lemma CandidateWins(h: Hist, nd: Node)
    requires HistOk(h) && NodeOk(h, nd.id, nd) && nd.role == Candidate && IsQuorum(nd.votes, nd.Conf())
    ensures Wins(h, nd.term, nd.id, nd.durable, nd.votes)
    ensures nd.term !in h.el && AllEarly(h, nd.term, nd.votes)
  {
    assert VersionOk(h, nd, 0);
    forall v | v in nd.votes
      ensures VoteFor(h, v, nd.term, nd.id) && VoteOk(h, Key(v, nd.term))
      ensures Keeps(h, h.votes[Key(v, nd.term)].candLog, nd.durable, nd.term)
    {
      assert VoteFor(h, v, nd.term, nd.id);
      assert VoteOk(h, Key(v, nd.term));
    }
    if nd.term in h.el {
      var e := h.el[nd.term];
      ElectionWins(h, nd.term);
      ElectionSafety(h, nd.term, nd.id, nd.durable, nd.votes, e.leader, e.base, e.voters);
    }
  }

  /** The history after the election of `nd`. */
  lemma AddElection(h: Hist, nd: Node) returns (g: Hist)
    requires HistOk(h) && NodeOk(h, nd.id, nd) && nd.role == Candidate && IsQuorum(nd.votes, nd.Conf())
    ensures g == RecordElection(h, nd, BecomeLeader(nd).Mem())
    ensures HistOk(g) && Grows(h, g) && nd.term !in h.el
    ensures forall m | m != nd.id :: SameFor(h, g, m)
  {
    hide ConfOf, IsQuorum, Keeps;
    var t, base := nd.term, nd.durable;
    var first := Entry(t, Payload.Conf(nd.Conf()));
    var log := base + [first];
    CandidateWins(h, nd);
    assert BecomeLeader(nd).Mem() == log;
    g := RecordElection(h, nd, log);
    forall u | u in h.el
      ensures ElectionGrows(h, g, u)
    {
    }
    assert Grows(h, g);
    forall k | k in g.acks
      ensures AckOk(g, k)
    {
      assert AckOk(h, k);
    }
    NewElectionOk(h, g, nd, log);
    HistOkGrows(h, g);
    forall c | c in h.commits
      ensures c.term != t
    {
      assert CommitOk(h, c);
    }
  }

  lemma NewElectionOk(h: Hist, g: Hist, nd: Node, log: Log)
    requires HistOk(h) && Wins(h, nd.term, nd.id, nd.durable, nd.votes) && AllEarly(h, nd.term, nd.votes)
    requires nd.queue == [] && nd.initial == h.initial && nd.term !in h.el
    requires log == nd.durable + [Entry(nd.term, Payload.Conf(nd.Conf()))]
    requires g == RecordElection(h, nd, log) && Grows(h, g)
    ensures ElectionOk(g, nd.term)
  {
    var t, base := nd.term, nd.durable;
    LogOkGrows(h, g, base);
    forall i | 0 <= i < |log|
      ensures EntryOk(g, log, i)
    {
      if i < |base| {
        assert EntryOk(g, base, i);
        assert log[..i + 1] == base[..i + 1];
      }
    }
    assert log[..|base|] == base;
    assert ConfEntryOk(g, t, |base|);
    forall v | v in nd.votes
      ensures VoteFor(g, v, t, nd.id) && Keeps(g, g.votes[Key(v, t)].candLog, base, t)
    {
      assert VoteFor(h, v, t, nd.id);
      KeepsGrows(h, g, h.votes[Key(v, t)].candLog, base, base, t, t);
    }
  }

  lemma BecomeLeaderStepOk(s: State, step: Step)
    requires Inv(s) && Enabled(s, step) && step.BecomeLeaderStep?
    ensures Preserves(s, step)
  {
    hide Inv, NodeOk, HistOk, Grows, SameFor, BecomeLeader;
    var nd, h := s.nodes[step.n], s.h;
    NodeFacts(s, step.n);
    var g := AddElection(h, nd);
    NewLeaderOk(h, g, nd);
  }

  /** The node that just became leader. */
  lemma NewLeaderOk(h: Hist, g: Hist, nd: Node)
    requires HistOk(h) && HistOk(g) && Grows(h, g) && NodeOk(h, nd.id, nd)
    requires nd.role == Candidate && nd.term !in h.el
    requires g == RecordElection(h, nd, BecomeLeader(nd).Mem())
    ensures NodeOk(g, nd.id, BecomeLeader(nd))
  {
    NewLeaderVersions(h, g, nd);
    NewLeaderRecall(h, g, nd);
    PromisesOkNewLeader(h, g, nd);
    CoveredGrows(h, g, nd.durable, BecomeLeader(nd).Mem(), nd.commit, nd.term, nd.term);
    NewLeaderQueue(h, g, nd);
    NewLeaderBox(h, g, nd);
  }

  lemma NewLeaderVersions(h: Hist, g: Hist, nd: Node)
    requires HistOk(h) && HistOk(g) && Grows(h, g) && NodeOk(h, nd.id, nd) && nd.role == Candidate
    requires g == RecordElection(h, nd, BecomeLeader(nd).Mem())
    ensures VersionsOk(g, BecomeLeader(nd))
    ensures nd.durable <= BecomeLeader(nd).Mem()
  {
    hide HistOk, Grows, NodeOk, LogOk, Keeps, ConfOf;
    var r := BecomeLeader(nd);
    NewLeaderHolds(h, g, nd);
    assert r.Version(0) == nd.durable && r.Version(1) == r.Mem() && |r.queue| == 1;
    assert VersionOk(g, r, 0) && VersionOk(g, r, 1);
  }

  lemma NewLeaderHolds(h: Hist, g: Hist, nd: Node)
    requires HistOk(h) && HistOk(g) && Grows(h, g) && NodeOk(h, nd.id, nd) && nd.role == Candidate
    requires g == RecordElection(h, nd, BecomeLeader(nd).Mem())
    ensures var r := BecomeLeader(nd);
            && nd.queue == [] && nd.durable <= r.Mem()
            && HoldsPromises(g, nd.id, nd.durable, nd.term) && HoldsPromises(g, nd.id, r.Mem(), nd.term)
  {
    hide ConfOf, Keeps;
    var log := BecomeLeader(nd).Mem();
    assert log == nd.durable + [Entry(nd.term, Payload.Conf(nd.Conf()))];
    assert ElectionOk(g, nd.term);
    VersionHolds(h, nd, 0);
    HoldsPromisesGrows(h, g, nd.id, nd.durable, nd.term);
    HoldsPromisesExtend(g, nd.id, nd.durable, log, nd.term);
  }

  lemma NewLeaderRecall(h: Hist, g: Hist, nd: Node)
    requires Grows(h, g) && NodeOk(h, nd.id, nd) && nd.role == Candidate
    requires g == RecordElection(h, nd, BecomeLeader(nd).Mem())
    ensures var r := BecomeLeader(nd); RecallOk(g, r.id, r.durable, r.queue, r.term)
  {
    var r := BecomeLeader(nd);
    RecallGrows(h, g, nd.id, nd.durable, nd.queue, nd.term, nd.term);
    assert r.queue == nd.queue + [r.queue[0]];
    InheritsExtend(g, nd.durable, r.Mem(), nd.term + 1);
    RecallAdd(g, nd.id, nd.durable, nd.queue, nd.term, r.queue[0]);
  }

  lemma PromisesOkNewLeader(h: Hist, g: Hist, nd: Node)
    requires NodeOk(h, nd.id, nd) && g == RecordElection(h, nd, BecomeLeader(nd).Mem())
    ensures PromisesOk(g, BecomeLeader(nd))
  {
  }

  lemma NewLeaderQueue(h: Hist, g: Hist, nd: Node)
    requires NodeOk(h, nd.id, nd) && nd.role == Candidate
    ensures QueueOk(g, BecomeLeader(nd)) && DoneTermsOk(BecomeLeader(nd))
  {
    var r := BecomeLeader(nd);
    assert ItemOk(g, r, 0) && ItemHeld(g, r, 0, 0);
    forall d | d in r.ready
      ensures ReadyOk(g, r, d)
    {
      assert ReadyOk(h, nd, d);
    }
  }

  lemma NewLeaderBox(h: Hist, g: Hist, nd: Node)
    requires HistOk(h) && NodeOk(h, nd.id, nd) && nd.role == Candidate && nd.term !in h.el
    requires g == RecordElection(h, nd, BecomeLeader(nd).Mem())
    ensures LeaderOk(g, BecomeLeader(nd))
  {
    var r := BecomeLeader(nd);
    var log := r.Mem();
    assert log == nd.durable + [Entry(nd.term, Payload.Conf(nd.Conf()))];
    assert log[..|log|] == log;
    assert r.box.ballots == [BallotState(nd.Conf(), {})];
    assert BallotOk(g, r, 0);
    assert r.Version(0) == nd.durable && r.Version(1) == log && |r.queue| == 1;
    forall c | c in g.commits
      ensures c.term != nd.term
    {
      assert CommitOk(h, c);
    }
  }
}
