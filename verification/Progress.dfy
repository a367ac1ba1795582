/** What a run can always go on to do: a follower that the leader reaches takes its entries and learns its committed index,
    and a leader that reaches a quorum commits its whole log. */
module Progress {
  import opened Types
  import opened Quorum
  import opened BallotSpec
  import opened NodeSpec
  import opened Protocol
  import opened Invariant
  import opened Growth
  import opened StepsNode
  import opened StepsFollower
  import Safety
  import opened SmallerTerm

  // ---- one follower

  /** The node after its disk has run everything queued. */
  function Drained(nd: Node): Node
    decreases |nd.queue|
  {
    if nd.queue == [] then nd else Drained(DiskStep(nd))
  }

  /** The queue ends with the answer to a request of the node's own term. */
  predicate EndsWith(nd: Node, upto: nat, commit: nat) {
    nd.queue != [] && nd.queue[|nd.queue| - 1].done == FollowerDone(nd.term, upto, commit)
  }

  lemma DiskStepFacts(nd: Node)
    requires nd.queue != [] && nd.box == NoBox
    ensures var d := DiskStep(nd);
            && d == nd.(durable := nd.queue[0].log, queue := nd.queue[1..], commit := d.commit) && d.Mem() == nd.Mem()
            && d.commit == (if nd.queue[0].done.FollowerDone? && nd.queue[0].done.term == nd.term
                            then Max(nd.commit, nd.queue[0].done.commit) else nd.commit)
  {
  }

  lemma {:induction false} DrainedFacts(nd: Node)
    requires nd.box == NoBox
    ensures var d := Drained(nd); d == nd.(durable := nd.Mem(), queue := [], commit := d.commit) && d.commit >= nd.commit
    ensures forall upto, commit :: EndsWith(nd, upto, commit) ==> Drained(nd).commit >= commit
    decreases |nd.queue|
  {
    hide DiskStep;
    if nd.queue != [] {
      DiskStepFacts(nd);
      DrainedFacts(DiskStep(nd));
      assert forall upto, commit :: EndsWith(nd, upto, commit) && |nd.queue| > 1 ==> EndsWith(DiskStep(nd), upto, commit);
    }
  }

  /** What a follower learns from a request that passes the checks: a heartbeat moves its committed index at once, entries
      do as soon as they are on disk. */
  lemma LearnsCommit(run: seq<State>, i: nat, n: PeerId, m: Message)
    requires IsRun(run) && i < |run| && n in run[i].nodes
    requires m in run[i].msgs && m.AppendReq? && m.to == n && m.term >= run[i].nodes[n].term
    requires m.prev <= |run[i].nodes[n].Mem()| && TermAt(run[i].nodes[n].Mem(), m.prev) == m.prevTerm
    ensures var nd, r := run[i].nodes[n], HandleAppend(run[i].nodes[n], m);
            && r.box == NoBox && r.term == m.term && r.commit >= nd.commit
            && (m.entries == [] ==> r.commit == Max(nd.commit, Min(m.commit, m.prev)))
            && (m.entries != [] ==> r.commit == nd.commit)
            && Drained(r).commit >= Min(m.commit, m.prev + |m.entries|)
  {
    hide IsRun, NodeOk, HistOk, Grows, FirstConflict, Resolve, CheckStepDown, MessageOk, Inv;
    var nd := run[i].nodes[n];
    Followed(run, i, n, m);
    var nd1 := CheckStepDown(nd, m.term, m.leader);
    var r := HandleAppend(nd, m);
    DrainedFacts(r);
    var last := m.prev + |m.entries|;
    if m.entries != [] && last > nd1.applied {
      assert EndsWith(r, last, Min(m.commit, last));
    }
  }

  /** After the term checks the node follows the sender, with its log and indices untouched. */
  lemma Followed(run: seq<State>, i: nat, n: PeerId, m: Message)
    requires IsRun(run) && i < |run| && n in run[i].nodes
    requires m in run[i].msgs && m.AppendReq? && m.term >= run[i].nodes[n].term
    ensures var nd, nd1 := run[i].nodes[n], CheckStepDown(run[i].nodes[n], m.term, m.leader);
            && nd1.leader == Some(m.leader) && nd1.term == m.term && nd1.role == Follower && nd1.box == NoBox
            && nd1.commit == nd.commit && nd1.applied == nd.applied <= nd.commit && nd1.Mem() == nd.Mem()
            && nd1.id == nd.id == n
  {
    hide IsRun, HistOk, Grows, MessageOk, VersionsOk, RecallOk, PromisesOk, QueueOk, DoneTermsOk, Covered, CandidateOk, LeaderOk;
    Safety.RunInv(run, i, i);
    NodeFacts(run[i], n);
    assert MessageOk(run[i].h, m);
    OneLeaderPerTerm(run[i].h, n, run[i].nodes[n], m);
  }

  // ---- runs that go on

  /** `r` goes on where `run` ends; only node `n` has changed by its end, and no message is lost. */
  ghost predicate GoesOn(run: seq<State>, r: seq<State>, n: PeerId) {
    && IsRun(run) && IsRun(r) && run <= r && n in Last(run).nodes && n in Last(r).nodes
    && Last(r).nodes == Last(run).nodes[n := Last(r).nodes[n]] && Last(run).msgs <= Last(r).msgs
  }

  lemma GoesOnTwice(run: seq<State>, r: seq<State>, q: seq<State>, n: PeerId)
    requires GoesOn(run, r, n) && GoesOn(r, q, n)
    ensures GoesOn(run, q, n)
  {
    hide Init, Next;
  }

  lemma Take(run: seq<State>, step: Step) returns (r: seq<State>)
    requires IsRun(run) && Enabled(Last(run), step)
    ensures GoesOn(run, r, step.n) && Last(r) == Do(Last(run), step)
  {
    hide Init, Next, Protocol.Run;
    r := Go(run, step);
  }

  lemma {:induction false} Drain(run: seq<State>, n: PeerId) returns (r: seq<State>)
    requires IsRun(run) && n in Last(run).nodes && Last(run).nodes[n].box == NoBox
    ensures GoesOn(run, r, n) && Last(r).nodes[n] == Drained(Last(run).nodes[n])
    ensures var nd := Last(run).nodes[n];
            forall upto, commit :: EndsWith(nd, upto, commit) ==> AppendResp(nd.term, nd.id, upto) in Last(r).msgs
    decreases |Last(run).nodes[n].queue|
  {
    hide Init, Next, DiskStep, HistAfterDone;
    var nd := Last(run).nodes[n];
    r := run;
    if nd.queue != [] {
      DiskStepFacts(nd);
      var r1 := Take(run, DiskStepStep(n));
      r := Drain(r1, n);
      GoesOnTwice(run, r1, r, n);
      assert forall upto, commit :: EndsWith(nd, upto, commit) && |nd.queue| > 1 ==> EndsWith(DiskStep(nd), upto, commit);
    }
  }

  /** A leader sends entries to a follower whose log matches before them, and the follower writes them. */
  lemma Deliver(run: seq<State>, b: PeerId, m: Message) returns (r: seq<State>)
    requires IsRun(run) && b in Last(run).nodes
    requires m in Last(run).msgs && m.AppendReq? && m.to == b && m.term >= Last(run).nodes[b].term
    requires m.prev <= |Last(run).nodes[b].Mem()| && TermAt(Last(run).nodes[b].Mem(), m.prev) == m.prevTerm
    ensures GoesOn(run, r, b)
    ensures var nd, nd1 := Last(run).nodes[b], Last(r).nodes[b];
            && nd1.commit >= Max(nd.commit, Min(m.commit, m.prev + |m.entries|))
            && nd1.queue == [] && nd1.durable == HandleAppend(nd, m).Mem() && nd1.term == m.term
    ensures m.entries != [] ==> AppendResp(m.term, b, m.prev + |m.entries|) in Last(r).msgs
  {
    hide Init, Next, HandleAppend, Drained;
    var nd, last := Last(run).nodes[b], m.prev + |m.entries|;
    LearnsCommit(run, |run| - 1, b, m);
    Answers(run, |run| - 1, b, m);
    var r1 := Take(run, AppendReqStep(b, m, true));
    var taken := HandleAppend(nd, m);
    DrainedFacts(taken);
    r := Drain(r1, b);
    GoesOnTwice(run, r1, r, b);
    if m.entries != [] && last <= nd.applied {
      var r2 := Take(r, ReadyStep(b, FollowerDone(m.term, last, Min(m.commit, last))));
      GoesOnTwice(run, r, r2, b);
      r := r2;
    }
  }

  /** The answer to a request with entries waits for the disk, or for nothing when they are applied already. */
  lemma Answers(run: seq<State>, i: nat, n: PeerId, m: Message)
    requires IsRun(run) && i < |run| && n in run[i].nodes
    requires m in run[i].msgs && m.AppendReq? && m.to == n && m.term >= run[i].nodes[n].term
    requires m.prev <= |run[i].nodes[n].Mem()| && TermAt(run[i].nodes[n].Mem(), m.prev) == m.prevTerm
    ensures var nd, r, last := run[i].nodes[n], HandleAppend(run[i].nodes[n], m), m.prev + |m.entries|;
            && nd.id == r.id == n
            && (m.entries != [] ==>
                  if last <= nd.applied then FollowerDone(m.term, last, Min(m.commit, last)) in r.ready
                  else EndsWith(r, last, Min(m.commit, last)))
  {
    hide Init, Next, FirstConflict, Resolve, CheckStepDown;
    Followed(run, i, n, m);
  }

  /** Whatever a follower has missed: when its log matches the leader's before `prev`, the run can go on so that it has the
      leader's log up to `prev + count` on disk, has acknowledged it, and knows what of it is committed. */
  lemma CatchUp(run: seq<State>, a: PeerId, b: PeerId, prev: nat, count: nat) returns (r: seq<State>)
    requires IsRun(run) && a in Last(run).nodes && b in Last(run).nodes && a != b
    requires Last(run).nodes[a].role == Leader && Last(run).nodes[b].term <= Last(run).nodes[a].term
    requires prev + count <= |Last(run).nodes[a].Mem()| && prev <= |Last(run).nodes[b].Mem()|
    requires TermAt(Last(run).nodes[b].Mem(), prev) == TermAt(Last(run).nodes[a].Mem(), prev)
    ensures GoesOn(run, r, b)
    ensures var leader, nd, last := Last(run).nodes[a], Last(r).nodes[b], prev + count;
            && nd.term == leader.term && nd.commit >= Min(leader.commit, last)
            && last <= |nd.durable| && nd.durable[..last] == leader.Mem()[..last] && nd.queue == []
            && (count > 0 ==> AppendResp(leader.term, b, last) in Last(r).msgs)
  {
    hide Init, Next, HandleAppend, TermAt;
    var leader := Last(run).nodes[a];
    LeaderId(run, a);
    var m := SendAppend(leader, b, prev, count);
    var r1 := Take(run, SendAppendStep(a, b, prev, count));
    assert Last(r1).nodes == Last(run).nodes;
    HasEntries(r1, a, b, m);
    r := Deliver(r1, b, m);
  }

  /** What the follower has after a request of the present leader. */
  lemma HasEntries(run: seq<State>, a: PeerId, b: PeerId, m: Message)
    requires IsRun(run) && a in Last(run).nodes && b in Last(run).nodes && m in Last(run).msgs
    requires m.AppendReq? && m.to == b && m.term >= Last(run).nodes[b].term && m.prev <= |Last(run).nodes[b].Mem()|
    requires m.prev + |m.entries| <= |Last(run).nodes[a].Mem()|
    requires m.entries == Last(run).nodes[a].Mem()[m.prev..m.prev + |m.entries|]
    requires TermAt(Last(run).nodes[b].Mem(), m.prev) == m.prevTerm == TermAt(Last(run).nodes[a].Mem(), m.prev)
    ensures var mem, last := HandleAppend(Last(run).nodes[b], m).Mem(), m.prev + |m.entries|;
            last <= |mem| && mem[..last] == Last(run).nodes[a].Mem()[..last]
  {
    hide Init, Next, HandleAppend, TermAt;
    var leader, nd := Last(run).nodes[a], Last(run).nodes[b];
    Safety.AcceptedRequest(run, |run| - 1, b, m);
    if m.prev > 0 {
      Safety.LogMatching(run, |run| - 1, |run| - 1, a, b, m.prev);
    }
    Pieces(nd.Mem(), HandleAppend(nd, m).Mem(), leader.Mem(), m.prev, |m.entries|);
  }

  lemma LeaderId(run: seq<State>, a: PeerId)
    requires IsRun(run) && a in Last(run).nodes
    ensures var nd := Last(run).nodes[a];
            && nd.id == a
            && (nd.role == Leader ==> nd.box.pending > 0 && nd.box.pending + |nd.box.ballots| == |nd.Mem()| + 1)
  {
    hide Init, Next, HistOk, Grows, MessageOk, VersionsOk, RecallOk, PromisesOk, QueueOk, DoneTermsOk, Covered, CandidateOk,
         CtxOk, BallotOk;
    Safety.RunInv(run, |run| - 1, |run| - 1);
    NodeFacts(Last(run), a);
  }

  lemma Pieces(mem: Log, after: Log, log: Log, prev: nat, count: nat)
    requires prev + count <= |log| && prev <= |mem| && prev + count <= |after|
    requires after[..prev] == mem[..prev] == log[..prev] && after[prev..prev + count] == log[prev..prev + count]
    ensures after[..prev + count] == log[..prev + count]
  {
    assert after[..prev + count] == after[..prev] + after[prev..prev + count];
    assert log[..prev + count] == log[..prev] + log[prev..prev + count];
  }

  /** A node may stop at any point of its disk queue, in the middle of an operation too, and comes back with its term, its
      vote and the log found there, and with nothing else. */
  lemma CanCrash(run: seq<State>, n: PeerId, k: nat, log: Log) returns (r: seq<State>)
    requires IsRun(run) && n in Last(run).nodes && k <= |Last(run).nodes[n].queue| && Last(run).nodes[n].MayFind(k, log)
    ensures GoesOn(run, r, n) && Last(r).msgs == Last(run).msgs
    ensures var nd, nd1 := Last(run).nodes[n], Last(r).nodes[n];
            && nd1.id == n && nd1.term == nd.term && nd1.voted == nd.voted && nd1.durable == nd1.Mem() == log
            && nd1.role == Follower && nd1.leader == None && nd1.commit == nd1.applied == 0 && nd1.ready == {} && nd1.votes == {}
            && nd1.box == NoBox && nd1.ctx == NoChange
  {
    hide Init, Next;
    LeaderId(run, n);
    r := Take(run, CrashStep(n, k, log));
  }

  // ---- a quorum

  /** The ballot of the last entry of a leader, while it waits. */
  function LastBallot(nd: Node): BallotState
    requires nd.box.ballots != []
  {
    nd.box.ballots[|nd.box.ballots| - 1]
  }

  /** The same leadership, with only disk, ballots and committed index moved on. */
  predicate Settles(nd: Node, nd1: Node) {
    nd1 == nd.(durable := nd1.durable, queue := nd1.queue, box := nd1.box, commit := nd1.commit) && nd1.Mem() == nd.Mem()
  }

  /** One more acknowledgement that reaches the end of the log commits it, or is counted on its last entry. */
  lemma CountOne(nd: Node, first: nat, q: PeerId)
    requires nd.box.ballots != [] && nd.box.pending > 0 && nd.box.pending + |nd.box.ballots| == |nd.Mem()| + 1
    requires first <= |nd.Mem()|
    ensures var b, r := LastBallot(nd), CommitOn(nd, first, |nd.Mem()|, q);
            && r == nd.(box := r.box, commit := r.commit)
            && if IsQuorum(b.granted + {q}, b.conf) then r.commit == |nd.Mem()|
               else r.box.ballots != [] && LastBallot(r) == BallotState(b.conf, b.granted + {q})
  {
    hide CommitAt, IsQuorum;
    var last := |nd.Mem()|;
    CommitAtExactly(nd.box, first, last, q);
    var r := CommitAt(nd.box, first, last, q);
    assert Counts(nd.box, first, last) && QuorumWith(nd.box, last, q) == IsQuorum(LastBallot(nd).granted + {q}, LastBallot(nd).conf);
    assert r.box.At(last) == BallotAfter(nd.box, first, last, q, last, r.committed);
    assert r.box.At(last + 1) == BallotAfter(nd.box, first, last, q, last + 1, r.committed);
  }

  /** A follower takes the whole log of the leader and acknowledges it. */
  lemma Acknowledge(run: seq<State>, a: PeerId, p: PeerId) returns (r: seq<State>)
    requires IsRun(run) && a in Last(run).nodes && p in Last(run).nodes && a != p
    requires Last(run).nodes[a].role == Leader && Last(run).nodes[p].term <= Last(run).nodes[a].term
    requires Last(run).nodes[a].Mem() != []
    ensures IsRun(r) && run <= r && p in Last(r).nodes && Last(r).nodes[p].term == Last(run).nodes[a].term
    ensures var nd := Last(run).nodes[a];
            Last(r).nodes == Last(run).nodes[p := Last(r).nodes[p]][a := CommitOn(nd, 1, |nd.Mem()|, p)]
  {
    hide Init, Next, CommitOn, RecordCommit;
    var nd := Last(run).nodes[a];
    var r1 := CatchUp(run, a, p, 0, |nd.Mem()|);
    assert Last(r1).nodes[a] == nd;
    r := Take(r1, AppendRespStep(a, AppendResp(nd.term, p, |nd.Mem()|), 1));
  }

  /** A leader that reaches a quorum of the configuration of its last entry, those that have been counted among them, can
      commit its whole log, whatever the followers have missed and whatever other ballots hold. */
  lemma {:induction false} QuorumCommits(run: seq<State>, a: PeerId, peers: set<PeerId>) returns (r: seq<State>)
    requires IsRun(run) && a in Last(run).nodes && peers != {} && a !in peers && peers <= Last(run).nodes.Keys
    requires forall q | q in peers :: Last(run).nodes[q].term <= Last(run).nodes[a].term
    requires var nd := Last(run).nodes[a];
             nd.role == Leader && nd.box.ballots != [] && IsQuorum(LastBallot(nd).granted + peers, LastBallot(nd).conf)
    ensures IsRun(r) && run <= r && Last(r).nodes.Keys == Last(run).nodes.Keys
    ensures var nd, nd1 := Last(run).nodes[a], Last(r).nodes[a]; Settles(nd, nd1) && nd1.commit == |nd.Mem()|
    ensures forall q | q in peers :: Last(r).nodes[q].term <= Last(r).nodes[a].term
    ensures forall q | q in Last(r).nodes && q !in peers && q != a :: Last(r).nodes[q] == Last(run).nodes[q]
    decreases peers
  {
    hide Init, Next, IsQuorum, CommitOn;
    var nd := Last(run).nodes[a];
    var p :| p in peers;
    LeaderId(run, a);
    r := Acknowledge(run, a, p);
    CountOne(nd, 1, p);
    var b := LastBallot(nd);
    if !IsQuorum(b.granted + {p}, b.conf) {
      assert b.granted + {p} + (peers - {p}) == b.granted + peers;
      assert peers == {p} ==> b.granted + peers == b.granted + {p};
      r := QuorumCommits(r, a, peers - {p});
    }
  }

  // ---- an election

  /** The node asks for votes in its term, with its log. */
  ghost predicate Asks(s: State, c: PeerId) {
    && c in s.nodes
    && var nd := s.nodes[c];
       && nd.id == c && nd.role == Candidate && nd.queue == []
       && VoteReq(nd.term, c, LastId(nd.Mem())) in s.msgs && Candidacy(nd.term, c, nd.Mem()) in s.h.cands
  }

  /** A node that would vote for `log` in `term`. */
  ghost predicate Votes(nd: Node, term: nat, log: Log) {
    nd.term < term && LastId(log).AtLeast(LastId(nd.durable))
  }

  /** A voter grants its vote, and the candidate counts it. */
  lemma OneVote(run: seq<State>, c: PeerId, q: PeerId) returns (r: seq<State>)
    requires IsRun(run) && Asks(Last(run), c) && q in Last(run).nodes && q != c
    requires Votes(Last(run).nodes[q], Last(run).nodes[c].term, Last(run).nodes[c].Mem())
    ensures IsRun(r) && run <= r && Asks(Last(r), c)
    ensures q in Last(r).nodes && Last(r).nodes[q].term == Last(run).nodes[c].term
    ensures Last(r).nodes == Last(run).nodes[q := Last(r).nodes[q]][c := HandleVoteResp(Last(run).nodes[c], q)]
  {
    hide Init, Next, LastId;
    LeaderId(run, q);
    var nd, voter := Last(run).nodes[c], Last(run).nodes[q];
    var r1 := Take(run, VoteReqStep(q, VoteReq(nd.term, c, LastId(nd.Mem())), nd.Mem(), LastId(voter.durable)));
    r := Take(r1, VoteRespStep(c, VoteResp(nd.term, q, c)));
  }

  lemma {:induction false} AllVotes(run: seq<State>, c: PeerId, peers: set<PeerId>) returns (r: seq<State>)
    requires IsRun(run) && Asks(Last(run), c) && peers <= Last(run).nodes.Keys && c !in peers
    requires forall q | q in peers :: Votes(Last(run).nodes[q], Last(run).nodes[c].term, Last(run).nodes[c].Mem())
    ensures IsRun(r) && run <= r && Last(r).nodes.Keys == Last(run).nodes.Keys
    ensures var nd := Last(run).nodes[c]; Last(r).nodes[c] == nd.(votes := nd.votes + peers)
    ensures forall q | q in peers :: Last(r).nodes[q].term == Last(run).nodes[c].term
    ensures forall q | q in Last(r).nodes && q !in peers && q != c :: Last(r).nodes[q] == Last(run).nodes[q]
    decreases peers
  {
    hide Init, Next, Votes;
    r := run;
    var nd := Last(run).nodes[c];
    if peers == {} {
      assert nd.votes + peers == nd.votes;
    } else {
      var q :| q in peers;
      var r1 := OneVote(run, c, q);
      r := AllVotes(r1, c, peers - {q});
      assert nd.votes + {q} + (peers - {q}) == nd.votes + peers;
    }
  }

  /** The node stands in the next term and has counted its own vote. */
  lemma Campaign(run: seq<State>, c: PeerId) returns (r: seq<State>)
    requires IsRun(run) && c in Last(run).nodes
    requires var nd := Last(run).nodes[c]; nd.role != Leader && nd.queue == [] && nd.Conf().Contains(c)
    ensures GoesOn(run, r, c) && Asks(Last(r), c)
    ensures var nd, nd1 := Last(run).nodes[c], Last(r).nodes[c];
            nd1.term == nd.term + 1 && nd1.durable == nd.durable && nd1.initial == nd.initial && nd1.votes == {c}
  {
    hide Init, Next, ConfOf, LastId;
    var nd := Last(run).nodes[c];
    LeaderId(run, c);
    var r1 := Take(run, ElectSelfStep(c, nd.Mem()));
    r := Take(r1, VoteRespStep(c, VoteResp(nd.term + 1, c, c)));
    GoesOnTwice(run, r1, r, c);
  }

  /** The leader of `term` has opened it with its configuration, which nobody has acknowledged yet. */
  ghost predicate Opened(nd: Node, term: nat, log: Log, conf: Config) {
    var longer := log + [Entry(term, Payload.Conf(conf))];
    && nd.role == Leader && nd.term == term && nd.durable == log
    && nd.queue == [DiskItem(longer, LeaderDone(|longer|, |longer|))] && nd.box == Box(|longer|, [BallotState(conf, {})])
  }

  lemma Opens(nd: Node)
    requires nd.queue == []
    ensures Opened(BecomeLeader(nd), nd.term, nd.durable, nd.Conf())
  {
    hide ConfOf;
    assert seq(1, i => BallotState(nd.Conf(), {})) == [BallotState(nd.Conf(), {})];
  }

  /** A node whose log is not behind the disks of enough others to make a quorum with it can win the next term. */
  lemma CanBeElected(run: seq<State>, c: PeerId, peers: set<PeerId>) returns (r: seq<State>)
    requires IsRun(run) && c in Last(run).nodes && c !in peers && peers <= Last(run).nodes.Keys
    requires var nd := Last(run).nodes[c]; nd.role != Leader && nd.queue == [] && nd.Conf().Contains(c)
    requires IsQuorum(peers + {c}, Last(run).nodes[c].Conf())
    requires forall q | q in peers :: Votes(Last(run).nodes[q], Last(run).nodes[c].term + 1, Last(run).nodes[c].Mem())
    ensures IsRun(r) && run <= r && Last(r).nodes.Keys == Last(run).nodes.Keys
    ensures var nd := Last(run).nodes[c]; Opened(Last(r).nodes[c], nd.term + 1, nd.Mem(), nd.Conf())
    ensures forall q | q in peers :: Last(r).nodes[q].term == Last(r).nodes[c].term
  {
    hide Init, Next, Votes, IsQuorum, ConfOf, BecomeLeader, Opened, RecordElection, LastId;
    var nd := Last(run).nodes[c];
    var r1 := Campaign(run, c);
    var r2 := AllVotes(r1, c, peers);
    assert {c} + peers == peers + {c};
    Opens(Last(r2).nodes[c]);
    r := Take(r2, BecomeLeaderStep(c));
    BecomesLeader(Last(r2).nodes[c]);
  }

  lemma BecomesLeader(nd: Node)
    ensures BecomeLeader(nd).term == nd.term
  {
  }

  /** Such a node can then commit everything it has, the group of one included. */
  lemma CanCommit(run: seq<State>, c: PeerId, peers: set<PeerId>) returns (r: seq<State>)
    requires IsRun(run) && c in Last(run).nodes && c !in peers && peers <= Last(run).nodes.Keys
    requires var nd := Last(run).nodes[c]; nd.role != Leader && nd.queue == [] && nd.Conf().Contains(c)
    requires IsQuorum(peers + {c}, Last(run).nodes[c].Conf())
    requires forall q | q in peers :: Votes(Last(run).nodes[q], Last(run).nodes[c].term + 1, Last(run).nodes[c].Mem())
    ensures IsRun(r) && run <= r && c in Last(r).nodes
    ensures var nd, nd1 := Last(run).nodes[c], Last(r).nodes[c];
            && nd1.role == Leader && nd1.term == nd.term + 1 && nd1.commit == |nd1.Mem()|
            && nd1.Mem() == nd.Mem() + [Entry(nd1.term, Payload.Conf(nd.Conf()))]
  {
    hide Init, Next, Votes, IsQuorum, ConfOf, DiskStep, HistAfterDone;
    var nd := Last(run).nodes[c];
    var r1 := CanBeElected(run, c, peers);
    LeaderId(r1, c);
    OwnDisk(Last(r1).nodes[c], nd.term + 1, nd.Mem(), nd.Conf());
    r := Take(r1, DiskStepStep(c));
    if !IsQuorum({c}, nd.Conf()) {
      assert peers == {} ==> peers + {c} == {c};
      assert {c} + peers == peers + {c};
      r := QuorumCommits(r, c, peers);
    }
  }

  /** The leader's own disk counts for its first entry. */
  lemma OwnDisk(nd: Node, term: nat, log: Log, conf: Config)
    requires Opened(nd, term, log, conf)
    ensures var r := DiskStep(nd);
            && r.role == Leader && r.term == term && r.Mem() == log + [Entry(term, Payload.Conf(conf))]
            && if IsQuorum({nd.id}, conf) then r.commit == |r.Mem()| else r.box == Box(|r.Mem()|, [BallotState(conf, {nd.id})])
  {
    hide IsQuorum;
    var ballots := GrantRange(nd.box.ballots, 0, 1, nd.id);
    assert {} + {nd.id} == {nd.id};
    assert ballots == [BallotState(conf, {nd.id})];
    assert LastGranted(ballots, 0, 1) == if IsQuorum({nd.id}, conf) then 1 else 0;
  }
}
