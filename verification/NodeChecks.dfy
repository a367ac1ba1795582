/** What the code of a node checks or takes for granted when a handler starts holds in every run of the group. */
module NodeChecks {
  import opened Types
  import opened BallotSpec
  import opened NodeSpec
  import opened Protocol
  import opened Invariant
  import opened Safety
  import opened StepsNode
  import opened StepsLeader

  /** Only a leader has a membership change in progress, only a candidate collects votes, and terms are positive. */
  predicate Quiet(nd: Node) {
    && nd.term > 0 && (nd.role != Leader ==> nd.ctx == NoChange) && (nd.role != Candidate ==> nd.votes == {})
  }

  ghost predicate AllQuiet(s: State) {
    (forall n | n in s.nodes :: Quiet(s.nodes[n])) && forall t | t in s.h.el :: t > 0
  }

  lemma NextStageQuiet(nd: Node)
    requires Quiet(nd)
    ensures Quiet(NextStage(nd))
  {
    hide ConfOf;
  }

  lemma HandlerQuiet(nd: Node, req: Message)
    requires Quiet(nd) && req.AppendReq?
    ensures Quiet(HandleAppend(nd, req))
  {
    hide Resolve, FirstConflict, ConfOf, TermAt;
  }

  lemma DoneQuiet(nd: Node, done: Done)
    requires Quiet(nd)
    ensures Quiet(RunDone(nd, done))
  {
    hide CommitAt;
  }

  lemma NodeQuiet(s: State, step: Step)
    requires Enabled(s, step) && Quiet(s.nodes[step.n])
    ensures Quiet(Run(s, step).nd)
  {
    hide CommitAt, ConfOf, LastConfIndex, LastId, TermAt, NextStage, HandleAppend, RunDone, RecordLog, RecordVote,
         RecordElection;
    var nd := s.nodes[step.n];
    match step
    case StartChangeStep(_, peers) => NextStageQuiet(nd.(ctx := StartCtx(nd, peers)));
    case CaughtUpStep(_, peer, ok) => NextStageQuiet(nd.(ctx := nd.ctx.(adding := nd.ctx.adding - {peer})));
    case ConfCommittedStep(_) => NextStageQuiet(nd);
    case AppendReqStep(_, m, _) => HandlerQuiet(nd, m);
    case DiskStepStep(_) => DoneQuiet(nd.(durable := nd.queue[0].log, queue := nd.queue[1..]), nd.queue[0].done);
    case ReadyStep(_, done) => DoneQuiet(nd.(ready := nd.ready - {done}), done);
    case _ =>
  }

  /** Elections are recorded under the winner's term. */
  lemma ElectionTerms(s: State, step: Step)
    requires Enabled(s, step)
    ensures forall t | t in Run(s, step).h.el :: t in s.h.el || t == s.nodes[step.n].term
  {
    hide CommitAt, ConfOf, LastConfIndex, LastId, TermAt, NextStage, HandleAppend, CheckStepDown, HandleVoteReq, StartCtx;
  }

  lemma StepKeepsQuiet(s: State, step: Step)
    requires AllQuiet(s) && Enabled(s, step)
    ensures AllQuiet(Do(s, step))
  {
    hide Run;
    assert Quiet(s.nodes[step.n]);
    NodeQuiet(s, step);
    ElectionTerms(s, step);
  }

  lemma {:induction false} RunQuiet(run: seq<State>, i: nat)
    requires IsRun(run) && i < |run|
    ensures AllQuiet(run[i])
  {
    hide Init, Next, AllQuiet;
    if i == 0 {
      InitQuiet(run[0]);
    } else {
      RunQuiet(run, i - 1);
      assert Next(run[i - 1], run[i]);
      NextQuiet(run[i - 1], run[i]);
    }
  }

  lemma InitQuiet(s: State)
    requires Init(s)
    ensures AllQuiet(s)
  {
  }

  lemma NextQuiet(s: State, t: State)
    requires AllQuiet(s) && Next(s, t)
    ensures AllQuiet(t)
  {
    hide AllQuiet, Run;
    var step :| Enabled(s, step) && t == Do(s, step);
    StepKeepsQuiet(s, step);
  }

  /** A node that is not the leader has no ballots and no membership change, so a candidate that wins finds its ballot
      box unused and its commit index inside its log. */
  lemma WinnerIsClean(run: seq<State>, i: nat, n: PeerId)
    requires IsRun(run) && i < |run| && n in run[i].nodes && run[i].nodes[n].role != Leader
    ensures var nd := run[i].nodes[n]; nd.box == NoBox && nd.ctx == NoChange && nd.commit <= |nd.Mem()|
  {
    hide IsRun;
    RunInv(run, i, i);
    RunQuiet(run, i);
    assert NodeOk(run[i].h, n, run[i].nodes[n]) && Quiet(run[i].nodes[n]);
  }

  /** A follower's closure never reports a committed index to a ballot box in use, unless its term is over. */
  lemma ClosuresAreTimely(run: seq<State>, i: nat, n: PeerId, done: Done)
    requires IsRun(run) && i < |run| && n in run[i].nodes && done.FollowerDone?
    requires var nd := run[i].nodes[n]; done in nd.ready || (nd.queue != [] && done == nd.queue[0].done)
    ensures done.term == run[i].nodes[n].term ==> run[i].nodes[n].role == Follower && run[i].nodes[n].box == NoBox
  {
    hide IsRun;
    RunInv(run, i, i);
    var nd := run[i].nodes[n];
    assert NodeOk(run[i].h, n, nd);
    if done in nd.ready {
      assert ReadyOk(run[i].h, nd, done);
    } else {
      assert ItemOk(run[i].h, nd, 0);
    }
  }

  /** Every request names the term of its previous entry, which is 0 only for index 0. */
  lemma RequestsNameTheirTerm(run: seq<State>, i: nat, m: Message)
    requires IsRun(run) && i < |run| && m in run[i].msgs && m.AppendReq?
    ensures m.prev > 0 ==> m.prevTerm > 0
  {
    hide IsRun;
    RunInv(run, i, i);
    RunQuiet(run, i);
    var h := run[i].h;
    assert MessageOk(h, m);
    if m.prev > 0 {
      assert ElectionOk(h, m.term);
      assert EntryOk(h, h.el[m.term].log, m.prev - 1);
    }
  }

  /** Whatever log a restart finds, its last term is not above the stored one: a node never starts with an invalid
      term. */
  lemma StoredTermSuffices(run: seq<State>, i: nat, n: PeerId, k: nat, log: Log)
    requires IsRun(run) && i < |run| && n in run[i].nodes
    requires k <= |run[i].nodes[n].queue| && run[i].nodes[n].MayFind(k, log)
    ensures LastTerm(log) <= run[i].nodes[n].term
  {
    hide IsRun;
    RunInv(run, i, i);
    var nd := run[i].nodes[n];
    assert NodeOk(run[i].h, n, nd);
    var whole := if log <= nd.Version(k) then k else k + 1;
    assert VersionOk(run[i].h, nd, whole);
    if log != [] {
      assert nd.Version(whole)[|log| - 1] == log[|log| - 1];
    }
  }
}
