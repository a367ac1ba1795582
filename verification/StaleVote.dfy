/** A run with a window in which a vote rests on a stale id: a committed entry is lost, and two nodes apply different
    entries at the same index. */
module StaleVote {
  import opened Types
  import opened Quorum
  import opened BallotSpec
  import opened NodeSpec
  import opened Protocol
  import opened VoteWindow
  import opened SmallerTerm

  function Last(run: seq<Window>): Window
    requires run != []
  {
    run[|run| - 1]
  }

  // ---- the nodes along the run

  function Fresh(n: PeerId, term: nat): Node {
    Node(n, Trio, term, None, Follower, None, [], [], {}, 0, 0, NoBox, {}, NoChange)
  }

  function Asking(c: PeerId, term: nat, votes: set<PeerId>): Node {
    Node(c, Trio, term, Some(c), Candidate, None, [], [], {}, 0, 0, NoBox, votes, NoChange)
  }

  /** A leader whose first entry is on its own disk only. */
  function Leading(c: PeerId, term: nat): Node {
    Node(c, Trio, term, Some(c), Leader, Some(c), [First(term)], [], {}, 0, 0, Box(1, [BallotState(Trio, {c})]), {},
         ChangeCtx(Stage.Stable, {1, 2, 3}, {1, 2, 3}, {}, 0))
  }

  /** Node 2 after its vote, with the leader it follows and its log. */
  function Voter(term: nat, cand: PeerId, leader: Option<PeerId>, log: Log): Node {
    Node(2, Trio, term, Some(cand), Follower, leader, log, [], {}, 0, 0, NoBox, {}, NoChange)
  }

  // ---- what the handlers do there

  lemma Leads(c: PeerId, term: nat)
    requires c in {1, 3}
    ensures var nd := Asking(c, term, {c, 2});
            && nd.Conf() == Trio && IsQuorum(nd.votes, Trio)
            && BecomeLeader(nd).queue == [DiskItem([First(term)], LeaderDone(1, 1))]
            && DiskStep(BecomeLeader(nd)) == Leading(c, term)
  {
    TwoOfThree(c, 2);
    var nd := BecomeLeader(Asking(c, term, {c, 2}));
    assert [] + [First(term)] == [First(term)];
    assert seq(1, i => BallotState(Trio, {})) == [BallotState(Trio, {})];
    assert nd.box == Box(1, [BallotState(Trio, {})]);
    assert {c} * {1, 2, 3} == {c} && !BallotState(Trio, {c}).Granted();
    assert GrantRange(nd.box.ballots, 0, 1, c) == [BallotState(Trio, {c})];
  }

  lemma Commits(c: PeerId, term: nat)
    requires c in {1, 3}
    ensures var nd := CommitOn(Leading(c, term), 1, 1, 2);
            nd.commit == 1 && nd.applied == 0 && nd.role == Leader && nd.term == term && nd.Mem() == [First(term)]
  {
    TwoOfThree(c, 2);
    var ballots := GrantRange([BallotState(Trio, {c})], 0, 1, 2);
    assert {c} + {2} == {c, 2};
    assert ballots[0].Granted();
    assert LastGranted(ballots, 0, 1) == 1;
  }

  /** What node 2 queues for the first entry of the leader it has voted for. */
  lemma Accepts(term: nat, c: PeerId, log: Log)
    requires |log| <= 1 && (log != [] ==> log[0].term != term)
    ensures var nd := HandleAppend(Voter(term, c, None, log), AppendReq(term, c, 2, 0, 0, [First(term)], 0));
            var cut := if log == [] then [] else [DiskItem([], NoDone)];
            nd == Voter(term, c, Some(c), log).(queue := cut + [DiskItem([First(term)], FollowerDone(term, 1, 0))])
  {
    var nd := CheckStepDown(Voter(term, c, None, log), term, c);
    assert nd == Voter(term, c, Some(c), log);
    assert FirstConflict(log, 0, [First(term)]) == 0;
    assert log[..0] == [] && [First(term)][0..] == [First(term)] && [] + [First(term)] == [First(term)];
  }

  // ---- steps

  /** Only node `n` changes; messages, candidacies and readings stay. */
  ghost predicate Onward(run: seq<Window>, r: seq<Window>, n: PeerId) {
    && IsWindowRun(run) && IsWindowRun(r)
    && n in Last(run).s.nodes && n in Last(r).s.nodes
    && Last(r).s.nodes == Last(run).s.nodes[n := Last(r).s.nodes[n]]
    && Last(run).s.msgs <= Last(r).s.msgs && Last(run).s.h.cands <= Last(r).s.h.cands
  }

  lemma Go(run: seq<Window>, move: Move) returns (r: seq<Window>)
    requires IsWindowRun(run) && Possible(Last(run), move)
    ensures IsWindowRun(r) && Last(r) == Take(Last(run), move)
  {
    hide Init, Possible, Take;
    r := run + [Take(Last(run), move)];
    assert Moves(Last(run), Last(r));
  }

  lemma Step(run: seq<Window>, step: Step) returns (r: seq<Window>)
    requires IsWindowRun(run) && Enabled(Last(run).s, step) && !Crashes(step)
    ensures IsWindowRun(r) && Last(r).s == Do(Last(run).s, step) && Last(r).readings == Last(run).readings
  {
    hide Moves, Enabled, Do;
    r := Go(run, Plain(step));
    assert (set x | x in Last(run).readings && (x.n != step.n || !Crashes(step))) == Last(run).readings;
  }

  /** The node raises its term, stands for election and counts its own vote. */
  lemma Ask(run: seq<Window>, c: PeerId, term: nat) returns (r: seq<Window>)
    requires IsWindowRun(run) && c in {1, 3} && c in Last(run).s.nodes && Last(run).s.nodes[c] == Fresh(c, 1) && term > 1
    ensures Onward(run, r, c) && Last(r).s.nodes[c] == Asking(c, term, {c}) && Last(r).readings == Last(run).readings
    ensures VoteReq(term, c, LastId([])) in Last(r).s.msgs && Candidacy(term, c, []) in Last(r).s.h.cands
  {
    hide IsWindowRun;
    var r1 := Step(run, StepDownStep(c, term - 1));
    var r2 := Step(r1, ElectSelfStep(c, []));
    r := Step(r2, VoteRespStep(c, VoteResp(term, c, c)));
  }

  lemma Count(run: seq<Window>, c: PeerId, term: nat) returns (r: seq<Window>)
    requires IsWindowRun(run) && c in {1, 3} && c in Last(run).s.nodes && Last(run).s.nodes[c] == Asking(c, term, {c})
    requires VoteResp(term, 2, c) in Last(run).s.msgs
    ensures Onward(run, r, c) && Last(r).s.nodes[c] == Asking(c, term, {c, 2}) && Last(r).readings == Last(run).readings
  {
    hide IsWindowRun;
    r := Step(run, VoteRespStep(c, VoteResp(term, 2, c)));
  }

  lemma Lead(run: seq<Window>, c: PeerId, term: nat) returns (r: seq<Window>)
    requires IsWindowRun(run) && c in {1, 3} && c in Last(run).s.nodes && Last(run).s.nodes[c] == Asking(c, term, {c, 2})
    ensures Onward(run, r, c) && Last(r).s.nodes[c] == Leading(c, term) && Last(r).readings == Last(run).readings
  {
    hide IsWindowRun, BecomeLeader, DiskStep, IsQuorum, CommitAt;
    Leads(c, term);
    var r1 := Step(run, BecomeLeaderStep(c));
    r := Step(r1, DiskStepStep(c));
  }

  /** Node 2 votes without a window. */
  lemma Agree(run: seq<Window>, c: PeerId, term: nat) returns (r: seq<Window>)
    requires IsWindowRun(run) && c in {1, 3} && 2 in Last(run).s.nodes && Last(run).s.nodes[2] == Fresh(2, 1) && term > 1
    requires VoteReq(term, c, LastId([])) in Last(run).s.msgs && Candidacy(term, c, []) in Last(run).s.h.cands
    ensures Onward(run, r, 2) && Last(r).s.nodes[2] == Voter(term, c, None, []) && Last(r).readings == Last(run).readings
    ensures VoteResp(term, 2, c) in Last(r).s.msgs
  {
    hide IsWindowRun;
    r := Step(run, VoteReqStep(2, VoteReq(term, c, LastId([])), [], LastId([])));
  }

  lemma Send(run: seq<Window>, c: PeerId, term: nat) returns (r: seq<Window>)
    requires IsWindowRun(run) && c in {1, 3} && c in Last(run).s.nodes && Last(run).s.nodes[c] == Leading(c, term)
    ensures Onward(run, r, c) && Last(r).s.nodes[c] == Leading(c, term) && Last(r).readings == Last(run).readings
    ensures AppendReq(term, c, 2, 0, 0, [First(term)], 0) in Last(r).s.msgs
  {
    hide IsWindowRun;
    assert [First(term)][0..1] == [First(term)];
    r := Step(run, SendAppendStep(c, 2, 0, 1));
  }

  lemma Accept(run: seq<Window>, c: PeerId, term: nat, log: Log) returns (r: seq<Window>)
    requires IsWindowRun(run) && 2 in Last(run).s.nodes && Last(run).s.nodes[2] == Voter(term, c, None, log)
    requires AppendReq(term, c, 2, 0, 0, [First(term)], 0) in Last(run).s.msgs
    requires |log| <= 1 && (log != [] ==> log[0].term != term)
    ensures Onward(run, r, 2) && Last(r).readings == Last(run).readings
    ensures Last(r).s.nodes[2] == Voter(term, c, Some(c), []).(queue := [DiskItem([First(term)], FollowerDone(term, 1, 0))])
  {
    hide IsWindowRun, HandleAppend;
    Accepts(term, c, log);
    r := Step(run, AppendReqStep(2, AppendReq(term, c, 2, 0, 0, [First(term)], 0), true));
    if log != [] {
      r := Step(r, DiskStepStep(2));
    }
  }

  lemma Flush(run: seq<Window>, c: PeerId, term: nat) returns (r: seq<Window>)
    requires IsWindowRun(run) && 2 in Last(run).s.nodes
    requires Last(run).s.nodes[2] == Voter(term, c, Some(c), []).(queue := [DiskItem([First(term)], FollowerDone(term, 1, 0))])
    ensures Onward(run, r, 2) && Last(r).s.nodes[2] == Voter(term, c, Some(c), [First(term)])
    ensures Last(r).readings == Last(run).readings && AppendResp(term, 2, 1) in Last(r).s.msgs
  {
    hide IsWindowRun;
    r := Step(run, DiskStepStep(2));
  }

  /** The acknowledgement commits the entry, and the leader applies it. */
  lemma Apply(run: seq<Window>, c: PeerId, term: nat) returns (r: seq<Window>)
    requires IsWindowRun(run) && c in {1, 3} && c in Last(run).s.nodes && Last(run).s.nodes[c] == Leading(c, term)
    requires AppendResp(term, 2, 1) in Last(run).s.msgs
    ensures Onward(run, r, c) && Last(r).readings == Last(run).readings && Applied(Last(r).s.nodes[c], term)
  {
    hide IsWindowRun, CommitOn, CommitAt;
    Commits(c, term);
    var r1 := Step(run, AppendRespStep(c, AppendResp(term, 2, 1), 1));
    r := Step(r1, ApplyStep(c, 1));
  }

  /** The leader of `term` has committed and applied its first entry. */
  predicate Applied(nd: Node, term: nat) {
    nd.role == Leader && nd.term == term && nd.commit == 1 && nd.applied == 1 && nd.Mem() == [First(term)]
  }

  /** The first entry of the leader reaches node 2, is committed and applied. */
  lemma Replicate(run: seq<Window>, c: PeerId, term: nat, log: Log) returns (r: seq<Window>)
    requires IsWindowRun(run) && c in {1, 3} && c in Last(run).s.nodes && Last(run).s.nodes[c] == Leading(c, term)
    requires 2 in Last(run).s.nodes && Last(run).s.nodes[2] == Voter(term, c, None, log)
    requires |log| <= 1 && (log != [] ==> log[0].term != term)
    ensures IsWindowRun(r) && Last(r).readings == Last(run).readings
    ensures Last(run).s.msgs <= Last(r).s.msgs && Last(run).s.h.cands <= Last(r).s.h.cands
    ensures Last(r).s.nodes.Keys == Last(run).s.nodes.Keys && Applied(Last(r).s.nodes[c], term)
    ensures Last(r).s.nodes[2] == Voter(term, c, Some(c), [First(term)])
    ensures forall n | n in Last(r).s.nodes && n != c && n != 2 :: Last(r).s.nodes[n] == Last(run).s.nodes[n]
  {
    hide IsWindowRun, Applied;
    var r1 := Send(run, c, term);
    var r2 := Accept(r1, c, term, log);
    var r3 := Flush(r2, c, term);
    r := Apply(r3, c, term);
  }

  /** Node 2 leaves its mutex in `term` with an empty log. */
  lemma Leave(run: seq<Window>, term: nat, c: PeerId) returns (r: seq<Window>)
    requires IsWindowRun(run) && 2 in Last(run).s.nodes && Last(run).s.nodes[2] == Voter(term, c, None, [])
    ensures IsWindowRun(r) && Last(r) == Last(run).(readings := Last(run).readings + {Reading(2, term, LastId([]))})
  {
    hide IsWindowRun;
    r := Go(run, Read(2, LastId([])));
  }

  /** Node 2 votes with what it read before. */
  lemma VoteLate(run: seq<Window>, t: nat, u: nat) returns (r: seq<Window>)
    requires IsWindowRun(run) && t < u && 2 in Last(run).s.nodes && Last(run).s.nodes[2] == Voter(t, 1, Some(1), [First(t)])
    requires Reading(2, t, LastId([])) in Last(run).readings
    requires VoteReq(u, 3, LastId([])) in Last(run).s.msgs && Candidacy(u, 3, []) in Last(run).s.h.cands
    ensures Onward(run, r, 2) && Last(r).s.nodes[2] == Voter(u, 3, None, [First(t)]) && VoteResp(u, 2, 3) in Last(r).s.msgs
  {
    hide IsWindowRun;
    r := Go(run, GiveVote(Reading(2, t, LastId([])), VoteReq(u, 3, LastId([])), []));
  }

  lemma Start() returns (run: seq<Window>)
    ensures IsWindowRun(run) && Last(run).s.nodes == map[1 := Fresh(1, 1), 2 := Fresh(2, 1), 3 := Fresh(3, 1)]
    ensures Last(run).readings == {}
  {
    var nodes := map[1 := Fresh(1, 1), 2 := Fresh(2, 1), 3 := Fresh(3, 1)];
    run := [Window(State(nodes, {}, Hist(Trio, map[], map[], {}, map[], {}, {})), {})];
  }

  /** Node 1 leads term `t` with the vote of node 2 and its own entry on disk; node 3 asks for votes in term `u`. */
  lemma TwoAsk(t: nat, u: nat) returns (run: seq<Window>)
    requires 1 < t < u
    ensures IsWindowRun(run) && Last(run).readings == {}
    ensures Last(run).s.nodes == map[1 := Leading(1, t), 2 := Voter(t, 1, None, []), 3 := Asking(3, u, {3})]
    ensures VoteReq(u, 3, LastId([])) in Last(run).s.msgs && Candidacy(u, 3, []) in Last(run).s.h.cands
  {
    hide IsWindowRun;
    var r0 := Start();
    var r1 := Ask(r0, 1, t);
    var r2 := Agree(r1, 1, t);
    var r3 := Count(r2, 1, t);
    var r4 := Lead(r3, 1, t);
    run := Ask(r4, 3, u);
  }

  /** Node 2 reads an empty log to answer node 3, takes, acknowledges and commits the entry of node 1, and then votes for
      node 3, which leads without the entry and has another one committed and applied in its place. */
  lemma StaleVoteLosesEntry(t: nat, u: nat) returns (run: seq<Window>)
    requires 1 < t < u
    ensures IsWindowRun(run) && 1 in Last(run).s.nodes && 3 in Last(run).s.nodes
    ensures Applied(Last(run).s.nodes[1], t) && Applied(Last(run).s.nodes[3], u)
    ensures Last(run).s.nodes[1].Mem()[0] != Last(run).s.nodes[3].Mem()[0]
  {
    hide IsWindowRun;
    var r0 := TwoAsk(t, u);
    var r1 := Leave(r0, t, 1);
    var r2 := Replicate(r1, 1, t, []);
    var r3 := VoteLate(r2, t, u);
    var r4 := Count(r3, 3, u);
    var r5 := Lead(r4, 3, u);
    run := Replicate(r5, 3, u, [First(t)]);
  }
}
