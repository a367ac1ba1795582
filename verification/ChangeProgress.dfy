/** A leader that reaches a quorum can have client tasks applied and can carry a membership change through. */
module ChangeProgress {
  import opened Types
  import opened Quorum
  import opened BallotSpec
  import opened NodeSpec
  import opened Protocol
  import opened Invariant
  import opened Growth
  import opened StepsNode
  import Safety
  import opened SmallerTerm
  import opened Progress

  /** The last entry of the leader waits for its ballot, and its disk operation is queued. */
  ghost predicate Waits(nd: Node) {
    && nd.role == Leader && nd.box.ballots != [] && nd.queue != []
    && var done := nd.queue[|nd.queue| - 1].done; done.LeaderDone? && done.first <= done.last
  }

  /** What the queue of a leader holds. */
  ghost predicate OwnQueue(nd: Node) {
    && nd.box.pending > 0 && nd.box.pending + |nd.box.ballots| == |nd.Mem()| + 1
    && forall k | 0 <= k < |nd.queue| :: nd.queue[k].done.LeaderDone? && nd.queue[k].done.last == |nd.queue[k].log| <= |nd.Mem()|
  }

  lemma LeaderQueue(run: seq<State>, a: PeerId)
    requires IsRun(run) && a in Last(run).nodes && Last(run).nodes[a].role == Leader
    ensures Last(run).nodes[a].id == a && OwnQueue(Last(run).nodes[a])
  {
    hide Init, Next, HistOk, Grows, MessageOk, VersionsOk, RecallOk, PromisesOk, QueueOk, DoneTermsOk, Covered, CandidateOk,
         CtxOk, BallotOk;
    Safety.RunInv(run, |run| - 1, |run| - 1);
    NodeFacts(Last(run), a);
    var nd := Last(run).nodes[a];
    forall k | 0 <= k < |nd.queue|
      ensures |nd.queue[k].log| <= |nd.Mem()|
    {
      assert nd.Version(k + 1) <= nd.Mem();
    }
  }

  /** The first queued operation of a leader is done: its own grant counts where the operation reaches. */
  lemma LeaderDisk(nd: Node)
    requires Waits(nd) && OwnQueue(nd)
    ensures var b, r, done := LastBallot(nd), DiskStep(nd), nd.queue[0].done;
            && Settles(nd, r) && r.queue == nd.queue[1..]
            && if done.first <= done.last == |nd.Mem()| then
                 if IsQuorum(b.granted + {nd.id}, b.conf) then r.commit == |nd.Mem()|
                 else r.box.ballots != [] && LastBallot(r) == BallotState(b.conf, b.granted + {nd.id})
               else r.box.ballots != [] && LastBallot(r) == b
  {
    hide CommitAt, IsQuorum;
    var nd1, done := nd.(durable := nd.queue[0].log, queue := nd.queue[1..]), nd.queue[0].done;
    assert nd1.Mem() == nd.Mem();
    if done.first <= done.last == |nd.Mem()| {
      CountOne(nd1, done.first, nd.id);
    } else {
      CommitAtExactly(nd.box, done.first, done.last, nd.id);
      var r, last := CommitAt(nd.box, done.first, done.last, nd.id), |nd.Mem()|;
      if Counts(nd.box, done.first, done.last) {
        assert r.box.At(last) == BallotAfter(nd.box, done.first, done.last, nd.id, last, r.committed);
        assert r.box.At(last + 1) == BallotAfter(nd.box, done.first, done.last, nd.id, last + 1, r.committed);
      }
    }
  }

  /** The leader's disk works through its queue until the last entry is committed or has the leader's own grant. */
  lemma {:induction false} OwnGrant(run: seq<State>, a: PeerId) returns (r: seq<State>)
    requires IsRun(run) && a in Last(run).nodes && Waits(Last(run).nodes[a])
    ensures GoesOn(run, r, a)
    ensures var nd, nd1, b := Last(run).nodes[a], Last(r).nodes[a], LastBallot(Last(run).nodes[a]);
            && Settles(nd, nd1)
            && if IsQuorum(b.granted + {a}, b.conf) then nd1.commit == |nd.Mem()|
               else nd1.box.ballots != [] && LastBallot(nd1) == BallotState(b.conf, b.granted + {a})
    decreases |Last(run).nodes[a].queue|
  {
    hide Init, Next, DiskStep, HistAfterDone, IsQuorum;
    var nd := Last(run).nodes[a];
    LeaderQueue(run, a);
    LeaderDisk(nd);
    r := Take(run, DiskStepStep(a));
    if |nd.queue| > 1 && !(nd.queue[0].done.first <= nd.queue[0].done.last == |nd.Mem()|) {
      var r1 := r;
      r := OwnGrant(r1, a);
      GoesOnTwice(run, r1, r, a);
    }
  }

  /** A leader that makes a quorum with the peers it reaches can commit its last entry. */
  lemma CommitLast(run: seq<State>, a: PeerId, peers: set<PeerId>) returns (r: seq<State>)
    requires IsRun(run) && a in Last(run).nodes && a !in peers && peers <= Last(run).nodes.Keys
    requires forall q | q in peers :: Last(run).nodes[q].term <= Last(run).nodes[a].term
    requires Waits(Last(run).nodes[a]) && LastBallot(Last(run).nodes[a]).granted == {}
    requires IsQuorum(peers + {a}, LastBallot(Last(run).nodes[a]).conf)
    ensures IsRun(r) && run <= r && Last(r).nodes.Keys == Last(run).nodes.Keys
    ensures var nd, nd1 := Last(run).nodes[a], Last(r).nodes[a]; Settles(nd, nd1) && nd1.commit == |nd.Mem()|
    ensures forall q | q in peers :: Last(r).nodes[q].term <= Last(r).nodes[a].term
  {
    hide Init, Next, IsQuorum;
    var b := LastBallot(Last(run).nodes[a]);
    r := OwnGrant(run, a);
    assert b.granted + {a} == {a} && {a} + peers == peers + {a};
    if !IsQuorum({a}, b.conf) {
      assert peers == {} ==> peers + {a} == {a};
      r := QuorumCommits(r, a, peers);
    }
  }

  // ---- client tasks

  lemma Appended(nd: Node, entries: Log, conf: Config)
    requires OwnQueue(nd) && nd.role == Leader && entries != []
    ensures var r := LeaderAppend(nd, entries, conf);
            Waits(r) && LastBallot(r) == BallotState(conf, {}) && r.Mem() == nd.Mem() + entries
  {
  }

  /** Tasks given to such a leader can be committed and applied, in order, behind everything before them. */
  lemma CanApply(run: seq<State>, a: PeerId, values: seq<int>, peers: set<PeerId>) returns (r: seq<State>)
    requires IsRun(run) && a in Last(run).nodes && a !in peers && peers <= Last(run).nodes.Keys && values != []
    requires forall q | q in peers :: Last(run).nodes[q].term <= Last(run).nodes[a].term
    requires var nd := Last(run).nodes[a]; nd.role == Leader && IsQuorum(peers + {a}, nd.Conf())
    ensures IsRun(r) && run <= r && a in Last(r).nodes
    ensures var nd, nd1 := Last(run).nodes[a], Last(r).nodes[a];
            && nd1.role == Leader && nd1.term == nd.term && nd1.applied == nd1.commit == |nd1.Mem()|
            && |nd1.Mem()| == |nd.Mem()| + |values| && nd.Mem() <= nd1.Mem()
            && forall i | 0 <= i < |values| :: nd1.Mem()[|nd.Mem()| + i] == Entry(nd.term, Data(values[i]))
  {
    hide Init, Next, IsQuorum, ConfOf, RecordLog;
    var nd := Last(run).nodes[a];
    LeaderQueue(run, a);
    var entries := seq(|values|, i requires 0 <= i < |values| => Entry(nd.term, Data(values[i])));
    Appended(nd, entries, nd.Conf());
    var r1 := Take(run, ApplyTasksStep(a, values));
    var r2 := CommitLast(r1, a, peers);
    Applied(r2, a);
    r := Take(r2, ApplyStep(a, Last(r2).nodes[a].commit));
  }

  lemma Applied(run: seq<State>, a: PeerId)
    requires IsRun(run) && a in Last(run).nodes
    ensures Last(run).nodes[a].applied <= Last(run).nodes[a].commit
  {
    hide Init, Next, HistOk, Grows, MessageOk, VersionsOk, RecallOk, PromisesOk, QueueOk, DoneTermsOk, Covered, CandidateOk,
         LeaderOk;
    Safety.RunInv(run, |run| - 1, |run| - 1);
    NodeFacts(Last(run), a);
  }

  // ---- membership changes

  /** The peers to be added catch up one after the other; the last one starts the next stage. */
  lemma {:induction false} AllCaughtUp(run: seq<State>, a: PeerId) returns (r: seq<State>)
    requires IsRun(run) && a in Last(run).nodes && Last(run).nodes[a].role == Leader
    requires Last(run).nodes[a].ctx.stage == CatchingUp && Last(run).nodes[a].ctx.adding != {}
    ensures GoesOn(run, r, a)
    ensures var nd := Last(run).nodes[a]; Last(r).nodes[a] == NextStage(nd.(ctx := nd.ctx.(adding := {})))
    decreases Last(run).nodes[a].ctx.adding
  {
    hide Init, Next, NextStage, RecordLog;
    var nd := Last(run).nodes[a];
    var p :| p in nd.ctx.adding;
    r := Take(run, CaughtUpStep(a, p, true));
    if nd.ctx.adding - {p} != {} {
      var r1 := r;
      r := AllCaughtUp(r1, a);
      GoesOnTwice(run, r1, r, a);
    }
  }

  /** A change to `peers` that has nobody left to wait for. */
  function Started(nd: Node, peers: set<PeerId>): ChangeCtx {
    var oldPeers := nd.Conf().peers;
    ChangeCtx(CatchingUp, peers, oldPeers, {}, |peers - oldPeers| + |oldPeers - peers|)
  }

  lemma Begin(run: seq<State>, a: PeerId, peers: set<PeerId>) returns (r: seq<State>)
    requires IsRun(run) && a in Last(run).nodes
    requires var nd := Last(run).nodes[a]; nd.role == Leader && nd.ctx.stage == Idle && peers != nd.Conf().peers
    ensures GoesOn(run, r, a)
    ensures var nd := Last(run).nodes[a]; Last(r).nodes[a] == NextStage(nd.(ctx := Started(nd, peers)))
  {
    hide Init, Next, NextStage, RecordLog, ConfOf;
    var nd := Last(run).nodes[a];
    r := Take(run, StartChangeStep(a, peers));
    if peers - nd.Conf().peers != {} {
      var r1 := r;
      r := AllCaughtUp(r1, a);
      GoesOnTwice(run, r1, r, a);
    }
  }

  /** The configuration of a change that waits can be committed, and the change moves on by one stage. */
  lemma MoveOn(run: seq<State>, a: PeerId, reached: set<PeerId>) returns (r: seq<State>, nd: Node)
    requires IsRun(run) && a in Last(run).nodes && a !in reached && reached <= Last(run).nodes.Keys
    requires forall q | q in reached :: Last(run).nodes[q].term <= Last(run).nodes[a].term
    requires Waits(Last(run).nodes[a]) && LastBallot(Last(run).nodes[a]).granted == {}
    requires IsQuorum(reached + {a}, LastBallot(Last(run).nodes[a]).conf) && Last(run).nodes[a].ctx.stage in {Joint, Stage.Stable}
    ensures IsRun(r) && run <= r && Last(r).nodes.Keys == Last(run).nodes.Keys
    ensures Settles(Last(run).nodes[a], nd) && nd.commit == |nd.Mem()| && OwnQueue(nd) && Last(r).nodes[a] == NextStage(nd)
    ensures forall q | q in reached :: Last(r).nodes[q].term <= nd.term
  {
    hide Init, Next, IsQuorum, NextStage, RecordLog, Waits, LastConfIndex;
    var r1 := CommitLast(run, a, reached);
    nd := Last(r1).nodes[a];
    StillLeads(Last(run).nodes[a]);
    LeaderQueue(r1, a);
    LastConfInside(nd.Mem());
    r := Take(r1, ConfCommittedStep(a));
  }

  lemma StillLeads(nd: Node)
    requires Waits(nd)
    ensures nd.role == Leader
  {
  }

  lemma {:induction false} LastConfInside(log: Log)
    ensures LastConfIndex(log) <= |log|
  {
    if log != [] {
      LastConfInside(log[..|log| - 1]);
    }
  }

  /** A leader without a change in progress that makes a quorum of the old and of the new peers with those it reaches can
      carry the change through: the new configuration is committed, and the leader goes on if it is part of it. A change of
      one peer needs a quorum of the new peers only. */
  lemma CanChange(run: seq<State>, a: PeerId, peers: set<PeerId>, reached: set<PeerId>) returns (r: seq<State>)
    requires IsRun(run) && a in Last(run).nodes && a !in reached && reached <= Last(run).nodes.Keys
    requires forall q | q in reached :: Last(run).nodes[q].term <= Last(run).nodes[a].term
    requires var nd := Last(run).nodes[a]; nd.role == Leader && nd.ctx.stage == Idle && peers != nd.Conf().peers
    requires var nd := Last(run).nodes[a];
             IsQuorum(reached + {a}, Config(peers, if Started(nd, peers).nchanges > 1 then nd.Conf().peers else {}))
    ensures IsRun(r) && run <= r && a in Last(r).nodes
    ensures var nd, nd1 := Last(run).nodes[a], Last(r).nodes[a];
            && nd1.term == nd.term && nd1.ctx == NoChange && nd1.commit == |nd1.Mem()| && nd1.Conf() == Config(peers, {})
            && (nd1.role == Leader <==> a in peers) && nd.Mem() < nd1.Mem()
  {
    hide Init, Next, IsQuorum, ConfOf;
    var nd := Last(run).nodes[a];
    LeaderQueue(run, a);
    var r1 := Begin(run, a, peers);
    Opening(nd, peers);
    r := r1;
    if Started(nd, peers).nchanges > 1 {
      var joint;
      r, joint := MoveOn(r, a, reached);
      Closing(joint);
      QuorumOfNew(reached + {a}, peers, nd.Conf().peers);
    }
    var last;
    r, last := MoveOn(r, a, reached);
    Ending(last, peers);
  }

  lemma QuorumOfNew(grants: set<PeerId>, peers: set<PeerId>, oldPeers: set<PeerId>)
    requires IsQuorum(grants, Config(peers, oldPeers))
    ensures IsQuorum(grants, Config(peers, {}))
  {
  }

  /** The first stage appends the joint configuration, or the new one when one peer changes. */
  lemma Opening(nd: Node, peers: set<PeerId>)
    requires OwnQueue(nd) && nd.role == Leader
    ensures var ctx := Started(nd, peers);
            var joint := ctx.nchanges > 1;
            var conf, r := Config(peers, if joint then ctx.oldPeers else {}), NextStage(nd.(ctx := ctx));
            && Waits(r) && LastBallot(r) == BallotState(conf, {}) && r.term == nd.term && r.id == nd.id
            && r.Mem() == nd.Mem() + [Entry(nd.term, Payload.Conf(conf))] && r.initial == nd.initial
            && r.ctx == ctx.(stage := if joint then Joint else Stage.Stable)
  {
    hide ConfOf;
    var ctx := Started(nd, peers);
    var joint := ctx.nchanges > 1;
    var conf := Config(peers, if joint then ctx.oldPeers else {});
    Appended(nd.(ctx := ctx.(stage := if joint then Joint else Stage.Stable)), [Entry(nd.term, Payload.Conf(conf))], conf);
  }

  /** The second stage appends the new configuration. */
  lemma Closing(nd: Node)
    requires OwnQueue(nd) && nd.role == Leader && nd.ctx.stage == Joint
    ensures var conf, r := Config(nd.ctx.newPeers, {}), NextStage(nd);
            && Waits(r) && LastBallot(r) == BallotState(conf, {}) && r.term == nd.term && r.id == nd.id
            && r.Mem() == nd.Mem() + [Entry(nd.term, Payload.Conf(conf))] && r.initial == nd.initial
            && r.ctx == nd.ctx.(stage := Stage.Stable)
  {
    var conf := Config(nd.ctx.newPeers, {});
    Appended(nd.(ctx := nd.ctx.(stage := Stage.Stable)), [Entry(nd.term, Payload.Conf(conf))], conf);
  }

  /** The last stage ends the change. */
  lemma Ending(nd: Node, peers: set<PeerId>)
    requires nd.role == Leader && nd.ctx.stage == Stage.Stable && nd.ctx.newPeers == peers
    requires nd.Mem() != [] && nd.Mem()[|nd.Mem()| - 1].payload == Payload.Conf(Config(peers, {}))
    ensures var r := NextStage(nd);
            && r.term == nd.term && r.ctx == NoChange && r.commit == nd.commit && r.Mem() == nd.Mem()
            && r.Conf() == Config(peers, {}) && (r.role == Leader <==> nd.id in peers)
  {
  }
}
