/** A run in which a leader replaces an entry by one of a smaller term: what the log manager relies on is not something the
    protocol promises. */
module SmallerTerm {
  import opened Types
  import opened Quorum
  import opened BallotSpec
  import opened NodeSpec
  import opened Protocol

  const Trio := Config({1, 2, 3}, {})

  function Last(run: seq<State>): State
    requires run != []
  {
    run[|run| - 1]
  }

  /** The entry that the leader of a term starts with. */
  function First(term: nat): Entry {
    Entry(term, Payload.Conf(Trio))
  }

  predicate Started(nd: Node, n: PeerId) {
    nd.id == n && nd.initial == Trio && nd.applied == 0
  }

  /** A run of three nodes in which nothing has been applied. */
  ghost predicate Run(run: seq<State>) {
    && IsRun(run) && run != [] && Last(run).nodes.Keys == {1, 2, 3}
    && forall n | n in Last(run).nodes :: Started(Last(run).nodes[n], n)
  }

  /** Node `n` follows or runs in `term`, with all of `log` on disk. */
  ghost predicate Rests(run: seq<State>, n: PeerId, term: nat, log: Log)
    requires Run(run) && n in {1, 2, 3}
  {
    var nd := Last(run).nodes[n];
    nd.role != Leader && nd.term == term && nd.durable == log && nd.queue == []
  }

  ghost predicate Leads(run: seq<State>, n: PeerId, term: nat, log: Log)
    requires Run(run) && n in {1, 2, 3}
  {
    var nd := Last(run).nodes[n];
    nd.role == Leader && nd.term == term && nd.Mem() == log && |nd.queue| == 1 && nd.queue[0].done.LeaderDone?
  }

  /** The node that takes a step changes, and no other. */
  lemma Go(run: seq<State>, step: Step) returns (r: seq<State>)
    requires IsRun(run) && Enabled(Last(run), step)
    ensures IsRun(r) && r == run + [Do(Last(run), step)]
  {
    hide Protocol.Run, Enabled, Init;
    r := run + [Do(Last(run), step)];
    assert Next(Last(run), Last(r));
  }

  ghost predicate Others(run: seq<State>, r: seq<State>, n: PeerId)
    requires Run(run) && Run(r)
  {
    forall m | m in {1, 2, 3} && m != n :: Last(r).nodes[m] == Last(run).nodes[m]
  }

  lemma Stand(run: seq<State>, c: PeerId, t: nat, log: Log) returns (r: seq<State>)
    requires Run(run) && c in {1, 2, 3} && Rests(run, c, t, log) && ConfOf(Trio, log) == Trio
    ensures Run(r) && Others(run, r, c) && Last(r).nodes[c] == ElectSelf(Last(run).nodes[c])
    ensures VoteReq(t + 1, c, LastId(log)) in Last(r).msgs && Candidacy(t + 1, c, log) in Last(r).h.cands
    ensures VoteResp(t + 1, c, c) in Last(r).msgs
  {
    hide ConfOf, IsRun;
    r := Go(run, ElectSelfStep(c, log));
  }

  lemma Vote(run: seq<State>, v: PeerId, vt: nat, vlog: Log, c: PeerId, t: nat, log: Log) returns (r: seq<State>)
    requires Run(run) && v in {1, 2, 3} && v != c && Rests(run, v, vt, vlog) && vt < t
    requires VoteReq(t, c, LastId(log)) in Last(run).msgs && Candidacy(t, c, log) in Last(run).h.cands
    requires LastId(log).AtLeast(LastId(vlog))
    ensures Run(r) && Others(run, r, v) && Rests(r, v, t, vlog) && VoteResp(t, v, c) in Last(r).msgs
  {
    hide ConfOf, IsRun, LastId;
    r := Go(run, VoteReqStep(v, VoteReq(t, c, LastId(log)), log, LastId(vlog)));
  }

  lemma Count(run: seq<State>, c: PeerId, v: PeerId) returns (r: seq<State>)
    requires Run(run) && c in {1, 2, 3} && Last(run).nodes[c].role == Candidate
    requires VoteResp(Last(run).nodes[c].term, v, c) in Last(run).msgs
    ensures Run(r) && Others(run, r, c) && Last(r).nodes[c] == HandleVoteResp(Last(run).nodes[c], v)
    ensures Last(r).msgs == Last(run).msgs && Last(r).h == Last(run).h
  {
    hide ConfOf, IsRun;
    r := Go(run, VoteRespStep(c, VoteResp(Last(run).nodes[c].term, v, c)));
  }

  lemma TwoOfThree(c: PeerId, v: PeerId)
    requires c in {1, 2, 3} && v in {1, 2, 3} && c != v
    ensures IsQuorum({c, v}, Trio)
  {
    assert {c, v} * {1, 2, 3} == {c, v};
  }

  lemma Lead(run: seq<State>, c: PeerId, v: PeerId, t: nat, log: Log) returns (r: seq<State>)
    requires Run(run) && c in {1, 2, 3} && v in {1, 2, 3} && c != v && ConfOf(Trio, log) == Trio
    requires Rests(run, c, t, log) && Last(run).nodes[c].role == Candidate && Last(run).nodes[c].votes == {c, v}
    ensures Run(r) && Others(run, r, c) && Leads(r, c, t, log + [First(t)])
  {
    hide ConfOf, IsRun, IsQuorum;
    TwoOfThree(c, v);
    r := Go(run, BecomeLeaderStep(c));
  }

  /** A candidate that has counted its own vote. */
  lemma Ask(run: seq<State>, c: PeerId, t: nat, log: Log) returns (r: seq<State>)
    requires Run(run) && c in {1, 2, 3} && Rests(run, c, t, log) && ConfOf(Trio, log) == Trio
    ensures Run(r) && Others(run, r, c) && Rests(r, c, t + 1, log)
    ensures Last(r).nodes[c].role == Candidate && Last(r).nodes[c].votes == {c}
    ensures VoteReq(t + 1, c, LastId(log)) in Last(r).msgs && Candidacy(t + 1, c, log) in Last(r).h.cands
  {
    hide ConfOf, IsRun, LastId;
    var r1 := Stand(run, c, t, log);
    r := Count(r1, c, c);
  }

  /** A candidate gets the vote of one other node. */
  lemma Gather(run: seq<State>, c: PeerId, t: nat, log: Log, v: PeerId, vt: nat, vlog: Log) returns (r: seq<State>)
    requires Run(run) && c in {1, 2, 3} && v in {1, 2, 3} && c != v && ConfOf(Trio, log) == Trio
    requires Rests(run, c, t, log) && Rests(run, v, vt, vlog) && vt <= t && LastId(log).AtLeast(LastId(vlog))
    ensures Run(r) && Rests(r, c, t + 1, log) && Rests(r, v, t + 1, vlog)
    ensures Last(r).nodes[c].role == Candidate && Last(r).nodes[c].votes == {c, v}
    ensures forall o | o in {1, 2, 3} && o != c && o != v :: Last(r).nodes[o] == Last(run).nodes[o]
  {
    hide ConfOf, IsRun, LastId, LogId.AtLeast;
    var r1 := Ask(run, c, t, log);
    var r2 := Vote(r1, v, vt, vlog, c, t + 1, log);
    r := Count(r2, c, v);
  }

  /** A candidate with the vote of one other node leads the next term. */
  lemma Win(run: seq<State>, c: PeerId, t: nat, log: Log, v: PeerId, vt: nat, vlog: Log) returns (r: seq<State>)
    requires Run(run) && c in {1, 2, 3} && v in {1, 2, 3} && c != v && ConfOf(Trio, log) == Trio
    requires Rests(run, c, t, log) && Rests(run, v, vt, vlog) && vt <= t && LastId(log).AtLeast(LastId(vlog))
    ensures Run(r) && Leads(r, c, t + 1, log + [First(t + 1)]) && Rests(r, v, t + 1, vlog)
    ensures forall o | o in {1, 2, 3} && o != c && o != v :: Last(r).nodes[o] == Last(run).nodes[o]
  {
    hide ConfOf, IsRun, LastId, LogId.AtLeast;
    var r1 := Gather(run, c, t, log, v, vt, vlog);
    r := Lead(r1, c, v, t + 1, log);
  }

  /** The leader's own entries reach its disk. */
  lemma Write(run: seq<State>, n: PeerId, t: nat, log: Log) returns (r: seq<State>)
    requires Run(run) && n in {1, 2, 3} && Leads(run, n, t, log)
    ensures Run(r) && Others(run, r, n)
    ensures var nd := Last(r).nodes[n]; nd.durable == log && nd.queue == [] && nd.term == t && nd.role == Leader
  {
    hide ConfOf, IsRun, CommitAt;
    r := Go(run, DiskStepStep(n));
  }

  lemma Retire(run: seq<State>, n: PeerId, t: nat) returns (r: seq<State>)
    requires Run(run) && n in {1, 2, 3} && Last(run).nodes[n].queue == [] && t > Last(run).nodes[n].term
    ensures Run(r) && Others(run, r, n) && Rests(r, n, t, Last(run).nodes[n].durable)
  {
    hide ConfOf, IsRun;
    r := Go(run, StepDownStep(n, t));
  }

  lemma Send(run: seq<State>, a: PeerId, log: Log, b: PeerId, t: nat) returns (r: seq<State>, sent: Message)
    requires Run(run) && a in {1, 2, 3} && b in {1, 2, 3} && a != b && Leads(run, a, t, log) && log != []
    ensures Run(r) && Last(r).nodes == Last(run).nodes && sent in Last(r).msgs
    ensures sent == AppendReq(t, a, b, 0, 0, [log[0]], Last(run).nodes[a].commit)
  {
    hide ConfOf, IsRun;
    sent := AppendReq(t, a, b, 0, 0, [log[0]], Last(run).nodes[a].commit);
    assert log[0..1] == [log[0]];
    r := Go(run, SendAppendStep(a, b, 0, 1));
    assert Last(r).nodes == Last(run).nodes;
  }

  /** The leader sends its first entry to a former leader, which has another first entry. */
  lemma Replace(run: seq<State>, a: PeerId, log: Log, b: PeerId, u: nat, t: nat) returns (r: seq<State>)
    requires Run(run) && a in {1, 2, 3} && b in {1, 2, 3} && a != b && u < t
    requires Leads(run, a, t, log) && Leads(run, b, u, [First(u)]) && log != [] && log[0].term != u
    ensures IsRun(r) && |r| >= 2 && b in r[|r| - 2].nodes && b in Last(r).nodes
    ensures r[|r| - 2].nodes[b].Mem() == [First(u)] && Last(r).nodes[b].Mem() == [log[0]]
  {
    hide ConfOf, IsRun, HandleAppend;
    var r1, sent := Send(run, a, log, b, t);
    r := Go(r1, AppendReqStep(b, sent, true));
    Replaced(Last(run).nodes[b], sent, u, log[0]);
  }

  lemma Replaced(nd: Node, req: Message, u: nat, x: Entry)
    requires req.AppendReq? && req.prev == 0 && req.prevTerm == 0 && req.entries == [x] && x.term != u && req.term > nd.term
    requires nd.Mem() == [First(u)] && nd.applied == 0
    ensures HandleAppend(nd, req).Mem() == [x]
  {
    OnlyOne(u, x);
    hide Resolve, ConfOf;
  }

  lemma OnlyOne(u: nat, x: Entry)
    requires x.term != u
    ensures Resolve([First(u)], 0, [x]) == [x]
  {
    assert FirstConflict([First(u)], 0, [x]) == 0;
  }

  lemma Start() returns (run: seq<State>)
    ensures Run(run) && forall n | n in {1, 2, 3} :: Last(run).nodes[n] == InitNode(n, Trio)
  {
    var nodes := map[1 := InitNode(1, Trio), 2 := InitNode(2, Trio), 3 := InitNode(3, Trio)];
    run := [State(nodes, {}, Hist(Trio, map[], map[], {}, map[], {}, {}))];
  }

  /** Node 1 leads term 2 alone with its entry, node 2 term 3 alone with its own; node 1 comes back in term 4 with the vote
      of node 3 and sends its old entry: node 2 replaces an entry of term 3 by one of term 2. */
  lemma SmallerTermReplaces() returns (run: seq<State>)
    ensures IsRun(run) && |run| >= 2 && 2 in run[|run| - 2].nodes && 2 in run[|run| - 1].nodes
    ensures run[|run| - 2].nodes[2].Mem() == [First(3)] && run[|run| - 1].nodes[2].Mem() == [First(2)]
  {
    hide IsRun;
    var r0 := Start();
    var r1 := Win(r0, 1, 1, [], 2, 1, []);
    var r2 := Write(r1, 1, 2, [] + [First(2)]);
    var r3 := Win(r2, 2, 2, [], 3, 1, []);
    var r4 := Retire(r3, 1, 3);
    var r5 := Win(r4, 1, 3, [First(2)], 3, 3, []);
    run := Replace(r5, 1, [First(2)] + [First(4)], 2, 3, 4);
  }
}
