/** A run in which an entry is committed and applied: the theorems about runs do not speak about nothing. */
module Witness {
  import opened Types
  import opened Quorum
  import opened BallotSpec
  import opened NodeSpec
  import opened Protocol

  const Alone := Config({1}, {})

  lemma Wins(nd: Node)
    requires nd == HandleVoteResp(ElectSelf(InitNode(1, Alone)), 1)
    ensures nd.Conf() == Alone && IsQuorum(nd.votes, Alone)
    ensures var r := BecomeLeader(nd);
            && r.role == Leader && r.box == Box(1, [BallotState(Alone, {})])
            && r.queue == [DiskItem([Entry(2, Payload.Conf(Alone))], LeaderDone(1, 1))]
  {
    assert {1} * {1} == {1};
    var entries := [Entry(2, Payload.Conf(Alone))];
    assert nd.Mem() + entries == entries;
    assert seq(1, i => BallotState(Alone, {})) == [BallotState(Alone, {})];
  }

  lemma Commits(nd: Node)
    requires nd.role == Leader && nd.id == 1 && nd.box == Box(1, [BallotState(Alone, {})]) && nd.queue != []
    requires nd.queue[0].done == LeaderDone(1, 1)
    ensures DiskStep(nd).commit == 1 && DiskStep(nd).role == Leader && DiskStep(nd).applied == nd.applied
  {
    var ballots := GrantRange([BallotState(Alone, {})], 0, 1, 1);
    assert {} + {1} == {1} && {1} * {1} == {1};
    assert ballots[0].Granted();
    assert LastGranted(ballots, 0, 1) == 1;
  }

  lemma Elect(s: State) returns (t: State)
    requires 1 in s.nodes && s.nodes[1] == InitNode(1, Alone)
    ensures Next(s, t) && 1 in t.nodes && t.nodes[1] == ElectSelf(InitNode(1, Alone)) && VoteResp(2, 1, 1) in t.msgs
  {
    t := Do(s, ElectSelfStep(1, []));
  }

  lemma Count(s: State) returns (t: State)
    requires 1 in s.nodes && s.nodes[1] == ElectSelf(InitNode(1, Alone)) && VoteResp(2, 1, 1) in s.msgs
    ensures Next(s, t) && 1 in t.nodes && t.nodes[1] == HandleVoteResp(ElectSelf(InitNode(1, Alone)), 1)
  {
    t := Do(s, VoteRespStep(1, VoteResp(2, 1, 1)));
  }

  lemma Lead(s: State) returns (t: State)
    requires 1 in s.nodes && s.nodes[1] == HandleVoteResp(ElectSelf(InitNode(1, Alone)), 1)
    ensures Next(s, t) && 1 in t.nodes && t.nodes[1] == BecomeLeader(s.nodes[1])
  {
    hide BecomeLeader;
    Wins(s.nodes[1]);
    t := Do(s, BecomeLeaderStep(1));
  }

  lemma Write(s: State) returns (t: State)
    requires 1 in s.nodes && s.nodes[1].queue != []
    ensures Next(s, t) && 1 in t.nodes && t.nodes[1] == DiskStep(s.nodes[1])
  {
    hide RunDone;
    t := Do(s, DiskStepStep(1));
  }

  lemma ApplyFirst(s: State) returns (t: State)
    requires 1 in s.nodes && s.nodes[1].applied == 0 && s.nodes[1].commit == 1
    ensures Next(s, t) && 1 in t.nodes && t.nodes[1] == s.nodes[1].(applied := 1)
  {
    t := Do(s, ApplyStep(1, 1));
  }

  lemma SomethingIsApplied() returns (run: seq<State>)
    ensures IsRun(run) && 1 in run[|run| - 1].nodes
    ensures run[|run| - 1].nodes[1].role == Leader && run[|run| - 1].nodes[1].applied == 1
  {
    hide RunDone, DiskStep, IsQuorum, Next;
    var s0 := State(map[1 := InitNode(1, Alone)], {}, Hist(Alone, map[], map[], {}, map[], {}, {}));
    var s1 := Elect(s0);
    var s2 := Count(s1);
    Wins(s2.nodes[1]);
    var s3 := Lead(s2);
    Commits(s3.nodes[1]);
    var s4 := Write(s3);
    var s5 := ApplyFirst(s4);
    run := [s0, s1, s2, s3, s4, s5];
  }
}
