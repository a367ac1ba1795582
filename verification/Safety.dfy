/** What holds in every run of the group: crashes, lost and repeated messages and membership changes included. */
module Safety {
  import opened Types
  import opened Quorum
  import opened BallotSpec
  import opened NodeSpec
  import opened Protocol
  import opened Invariant
  import opened Completeness
  import opened Growth
  import opened StepsNode
  import opened StepsElection
  import opened StepsLeader
  import opened StepsFollower
  import opened StepsAck

  lemma InitInv(s: State)
    requires Init(s)
    ensures Inv(s)
  {
    forall n | n in s.nodes
      ensures NodeOk(s.h, n, s.nodes[n])
    {
      var nd := s.nodes[n];
      assert VersionOk(s.h, nd, 0);
      assert PromisesOk(s.h, nd);
    }
  }

  lemma StepPreserves(s: State, step: Step)
    requires Inv(s) && Enabled(s, step)
    ensures Preserves(s, step)
  {
    hide Inv, Enabled, Preserves;
    match step
    case RememberStep(_) => RememberStepOk(s, step);
    case ElectSelfStep(_, _) => ElectSelfStepOk(s, step);
    case ElectCrashStep(_, _) => ElectCrashStepOk(s, step);
    case VoteReqStep(_, _, _, _) => VoteReqStepOk(s, step);
    case VoteRespStep(_, _) => VoteRespStepOk(s, step);
    case BecomeLeaderStep(_) => BecomeLeaderStepOk(s, step);
    case ApplyTasksStep(_, _) => ApplyTasksStepOk(s, step);
    case StartChangeStep(_, _) => StartChangeStepOk(s, step);
    case CaughtUpStep(_, _, _) => CaughtUpStepOk(s, step);
    case ConfCommittedStep(_) => ConfCommittedStepOk(s, step);
    case SendAppendStep(_, _, _, _) => SendAppendStepOk(s, step);
    case AppendReqStep(_, _, _) => AppendReqStepOk(s, step);
    case DiskStepStep(_) => DiskStepStepOk(s, step);
    case ReadyStep(_, _) => ReadyStepOk(s, step);
    case AppendRespStep(_, _, _) => AppendRespStepOk(s, step);
    case StepDownStep(_, _) => StepDownStepOk(s, step);
    case ApplyStep(_, _) => ApplyStepOk(s, step);
    case CrashStep(_, _, _) => CrashStepOk(s, step);
  }

  lemma NextKeepsInv(s: State, t: State)
    requires Inv(s) && Next(s, t)
    ensures Inv(t) && Grows(s.h, t.h) && t.nodes.Keys == s.nodes.Keys
  {
    hide Inv, Run;
    var step :| Enabled(s, step) && t == Do(s, step);
    StepPreserves(s, step);
    PreservesInv(s, step);
  }

  /** The invariant holds, and the history only grows, along every run. */
  lemma {:induction false} RunInv(run: seq<State>, i: nat, j: nat)
    requires IsRun(run) && i <= j < |run|
    ensures Inv(run[i]) && Inv(run[j]) && Grows(run[i].h, run[j].h)
    decreases j
  {
    hide Inv, Init, Next;
    if j == 0 {
      assert Init(run[0]);
      InitInv(run[0]);
      GrowsReflexive(run[0].h);
    } else {
      assert Next(run[j - 1], run[j]);
      RunInv(run, if i == j then j - 1 else i, j - 1);
      NextKeepsInv(run[j - 1], run[j]);
      if i == j {
        GrowsReflexive(run[j].h);
      } else {
        GrowsTransitive(run[i].h, run[j - 1].h, run[j].h);
      }
    }
  }

  // ---- theorems about runs

  /** State machine safety: no two nodes ever apply different entries at the same index. */
  lemma StateMachineSafety(run: seq<State>, i: nat, j: nat, a: PeerId, b: PeerId, index: nat)
    requires IsRun(run) && i <= j < |run| && a in run[i].nodes && b in run[j].nodes
    requires 0 < index <= run[i].nodes[a].applied && index <= run[j].nodes[b].applied
    ensures index <= |run[i].nodes[a].Mem()| && index <= |run[j].nodes[b].Mem()|
    ensures run[i].nodes[a].Mem()[index - 1] == run[j].nodes[b].Mem()[index - 1]
  {
    RunInv(run, i, j);
    var x, y, h, g := run[i].nodes[a], run[j].nodes[b], run[i].h, run[j].h;
    assert NodeOk(h, a, x) && NodeOk(g, b, y);
    CoveredGrows(h, g, x.Mem(), x.Mem(), x.commit, x.term, x.term);
    CoveredAgree(g, x.Mem(), y.Mem(), index, x.commit, y.commit, x.term, y.term);
    assert x.Mem()[index - 1] == x.Mem()[..index][index - 1];
    assert y.Mem()[index - 1] == y.Mem()[..index][index - 1];
  }

  /** Election safety: whoever leads a term at any two moments of a run is the same node. */
  lemma OneLeader(run: seq<State>, i: nat, j: nat, a: PeerId, b: PeerId)
    requires IsRun(run) && i <= j < |run| && a in run[i].nodes && b in run[j].nodes
    requires run[i].nodes[a].role == Leader && run[j].nodes[b].role == Leader
    requires run[i].nodes[a].term == run[j].nodes[b].term
    ensures a == b
  {
    RunInv(run, i, j);
    var t := run[i].nodes[a].term;
    assert NodeOk(run[i].h, a, run[i].nodes[a]) && NodeOk(run[j].h, b, run[j].nodes[b]);
    assert ElectionGrows(run[i].h, run[j].h, t);
  }

  /** Log matching: two logs, in memory at any two moments of a run, that agree on the term of an index agree
      on everything up to it. */
  lemma LogMatching(run: seq<State>, i: nat, j: nat, a: PeerId, b: PeerId, index: nat)
    requires IsRun(run) && i <= j < |run| && a in run[i].nodes && b in run[j].nodes
    requires 0 < index <= |run[i].nodes[a].Mem()| && index <= |run[j].nodes[b].Mem()|
    requires TermAt(run[i].nodes[a].Mem(), index) == TermAt(run[j].nodes[b].Mem(), index)
    ensures run[i].nodes[a].Mem()[..index] == run[j].nodes[b].Mem()[..index]
  {
    hide Inv, IsRun, NodeOk, HistOk, Grows;
    RunInv(run, i, j);
    var x, y := run[i].nodes[a], run[j].nodes[b];
    NodeFacts(run[i], a);
    NodeFacts(run[j], b);
    MemHolds(run[i].h, x);
    MemHolds(run[j].h, y);
    LogOkGrows(run[i].h, run[j].h, x.Mem());
    Matching(run[j].h, x.Mem(), y.Mem(), index - 1);
  }

  /** Leader completeness: what any node knows to be committed is in the log of every leader of a later term,
      whenever that leader is looked at, and of every leader of the same term from then on. */
  lemma LaterLeadersComplete(run: seq<State>, i: nat, j: nat, a: PeerId, b: PeerId)
    requires IsRun(run) && i < |run| && j < |run| && a in run[i].nodes && b in run[j].nodes
    requires run[j].nodes[b].role == Leader
    requires run[i].nodes[a].term < run[j].nodes[b].term
             || (run[i].nodes[a].term == run[j].nodes[b].term && i <= j)
    ensures run[i].nodes[a].commit <= |run[i].nodes[a].Mem()|
    ensures run[i].nodes[a].Mem()[..run[i].nodes[a].commit] <= run[j].nodes[b].Mem()
  {
    var k := Max(i, j);
    RunInv(run, i, k);
    RunInv(run, j, k);
    var x, y, g := run[i].nodes[a], run[j].nodes[b], run[k].h;
    assert NodeOk(run[i].h, a, x) && NodeOk(run[j].h, b, y);
    CoveredGrows(run[i].h, g, x.Mem(), x.Mem(), x.commit, x.term, x.term);
    assert ElectionGrows(run[j].h, g, y.term);
    assert ElectionOk(run[j].h, y.term);
    CoveredInLeader(g, x.Mem(), x.commit, x.term, y.term);
  }

  // ---- what a commit rests on

  /** Every log that any member of `quorum` may find on its disk, whenever it crashes, in the middle of an append or a
      truncation too, starts with `log`. */
  ghost predicate OnDisks(s: State, quorum: set<PeerId>, log: Log) {
    forall p, k, found {:trigger s.nodes[p].MayFind(k, found)} |
      p in quorum && p in s.nodes && 0 <= k <= |s.nodes[p].queue| && s.nodes[p].MayFind(k, found) :: log <= found
  }

  /** An acknowledged prefix that was committed cannot be lost: every later leader has it. */
  lemma QuorumHolds(s: State, c: Commit)
    requires Inv(s) && c in s.h.commits
    ensures OnDisks(s, c.quorum, Prefix(s.h, c))
  {
    var h, p := s.h, Prefix(s.h, c);
    assert CommitOk(h, c);
    forall n, k, found | n in c.quorum && n in s.nodes && 0 <= k <= |s.nodes[n].queue| && s.nodes[n].MayFind(k, found)
      ensures p <= found
    {
      var nd := s.nodes[n];
      NodeFacts(s, n);
      assert Acked(h, n, c.term, c.upto);
      CommitInVersion(h, nd, c, if nd.Version(k) <= found then k else k + 1);
    }
  }

  lemma CommitInVersion(h: Hist, nd: Node, c: Commit, k: nat)
    requires HistOk(h) && NodeOk(h, nd.id, nd) && c in h.commits && Acked(h, nd.id, c.term, c.upto) && k <= |nd.queue|
    ensures c.term in h.el && c.upto <= |h.el[c.term].log| && Prefix(h, c) <= nd.Version(k)
  {
    assert CommitOk(h, c);
    assert VersionOk(h, nd, k);
    var key := Key(nd.id, c.term);
    assert AckOk(h, key);
    HeldForever(h, c, AckedLog(h, key), nd.Version(k), nd.term + 1);
  }

  lemma HeldForever(h: Hist, c: Commit, acked: Log, log: Log, term: nat)
    requires HistOk(h) && c in h.commits && Prefix(h, c) <= acked && Keeps(h, acked, log, term)
    ensures Prefix(h, c) <= log
  {
    var p := Prefix(h, c);
    assert acked[..|p|] == p;
    assert KeepsAt(h, acked, log, term, |p|);
    if u :| u in h.el && p[|p| - 1].term < u < term && !(p <= h.el[u].base) {
      LeaderHoldsCommit(h, c, u);
    }
  }

  /** What any node takes for committed is part of a log that a quorum, of the configuration at the end of that
      log, has on disk from then on: no crash, election or membership change removes it again. */
  lemma CommittedStaysOnDisk(run: seq<State>, i: nat, j: nat, a: PeerId) returns (log: Log, quorum: set<PeerId>)
    requires IsRun(run) && i <= j < |run| && a in run[i].nodes && 0 < run[i].nodes[a].commit
    ensures run[i].nodes[a].commit <= |run[i].nodes[a].Mem()|
    ensures run[i].nodes[a].Mem()[..run[i].nodes[a].commit] <= log
    ensures IsQuorum(quorum, ConfOf(run[0].h.initial, log)) && OnDisks(run[j], quorum, log)
  {
    hide Inv, IsRun;
    RunInv(run, 0, i);
    RunInv(run, i, j);
    var c := CoveringCommit(run[i], a);
    NodeFacts(run[i], a);
    log, quorum := Prefix(run[i].h, c), c.quorum;
    CommitOnDisks(run[i], run[j], c);
  }

  lemma CoveringCommit(s: State, a: PeerId) returns (c: Commit)
    requires Inv(s) && a in s.nodes && 0 < s.nodes[a].commit
    ensures c in s.h.commits && s.nodes[a].commit <= |s.nodes[a].Mem()|
    ensures s.nodes[a].Mem()[..s.nodes[a].commit] <= Prefix(s.h, c)
    ensures IsQuorum(c.quorum, ConfOf(s.h.initial, Prefix(s.h, c)))
  {
    var x := s.nodes[a];
    assert NodeOk(s.h, a, x);
    c :| c in s.h.commits && CoveredBy(s.h, x.Mem(), x.commit, x.term, c);
    assert CommitOk(s.h, c);
  }

  /** Committing the skipped prefix is safe: whenever a leader moves its commit index to `c`, a quorum of the
      configuration of entry `c` has the leader's log up to `c` on disk, in this and every later state. */
  lemma CommitMoves(run: seq<State>, i: nat, j: nat, n: PeerId) returns (quorum: set<PeerId>)
    requires IsRun(run) && i + 1 <= j < |run| && n in run[i].nodes && n in run[i + 1].nodes
    requires run[i].nodes[n].role == Leader && run[i + 1].nodes[n].role == Leader
    requires run[i].nodes[n].commit != run[i + 1].nodes[n].commit
    ensures var nd := run[i + 1].nodes[n];
            && run[i].nodes[n].commit < nd.commit <= |nd.Mem()|
            && IsQuorum(quorum, ConfOf(run[0].h.initial, nd.Mem()[..nd.commit]))
            && OnDisks(run[j], quorum, nd.Mem()[..nd.commit])
  {
    hide Inv, IsRun, Next;
    RunInv(run, 0, i + 1);
    RunInv(run, i, i + 1);
    RunInv(run, i + 1, j);
    RunNext(run, i);
    var t, nd := run[i + 1], run[i + 1].nodes[n];
    var c := CommitRecorded(run[i], t, n);
    quorum := c.quorum;
    CommitOnDisks(t, run[j], c);
    LeaderPrefix(t, n, c);
  }

  lemma RunNext(run: seq<State>, i: nat)
    requires IsRun(run) && i + 1 < |run|
    ensures Next(run[i], run[i + 1])
  {
  }

  /** The commit of a leader at its commit index. */
  lemma LeaderPrefix(s: State, n: PeerId, c: Commit)
    requires Inv(s) && n in s.nodes && s.nodes[n].role == Leader
    requires c in s.h.commits && c.term == s.nodes[n].term && c.upto == s.nodes[n].commit
    ensures s.nodes[n].commit <= |s.nodes[n].Mem()| && Prefix(s.h, c) == s.nodes[n].Mem()[..s.nodes[n].commit]
    ensures IsQuorum(c.quorum, ConfOf(s.h.initial, Prefix(s.h, c)))
  {
    assert NodeOk(s.h, n, s.nodes[n]) && CommitOk(s.h, c);
  }

  lemma CommitOnDisks(s: State, t: State, c: Commit)
    requires Inv(s) && Inv(t) && Grows(s.h, t.h) && c in s.h.commits
    ensures OnDisks(t, c.quorum, Prefix(s.h, c))
  {
    var p := Prefix(s.h, c);
    assert ElectionGrows(s.h, t.h, c.term);
    assert Prefix(t.h, c) == p;
    QuorumHolds(t, c);
  }

  lemma CommitRecorded(s: State, t: State, n: PeerId) returns (c: Commit)
    requires Inv(s) && Next(s, t) && n in s.nodes && n in t.nodes
    requires s.nodes[n].role == Leader && t.nodes[n].role == Leader
    requires s.nodes[n].commit != t.nodes[n].commit
    ensures c in t.h.commits && c.term == t.nodes[n].term && c.upto == t.nodes[n].commit
    ensures s.nodes[n].commit < t.nodes[n].commit
  {
    hide Inv, Enabled, Run, Do;
    var step :| Enabled(s, step) && t == Do(s, step);
    OnlyAcksCommit(s, step, n);
    if step.AppendRespStep? {
      c := AppendRespRecorded(s, step, n);
    } else {
      c := DiskStepRecorded(s, step, n);
    }
  }

  /** A leader's commit index moves only when an acknowledgement arrives or its own disk finishes a write. */
  lemma OnlyAcksCommit(s: State, step: Step, n: PeerId)
    requires Inv(s) && Enabled(s, step) && n in s.nodes
    requires s.nodes[n].role == Leader && Do(s, step).nodes[n].role == Leader
    requires s.nodes[n].commit != Do(s, step).nodes[n].commit
    ensures step.n == n && (step.AppendRespStep? || step.DiskStepStep?)
  {
    hide Inv, NodeOk, CommitOn;
    if step.ReadyStep? {
      NodeFacts(s, step.n);
      ReadyHeld(s.h, s.nodes[step.n], step.done);
    }
  }

  lemma AppendRespRecorded(s: State, step: Step, n: PeerId) returns (c: Commit)
    requires Inv(s) && Enabled(s, step) && step.AppendRespStep? && step.n == n && s.nodes[n].role == Leader
    requires s.nodes[n].commit != Do(s, step).nodes[n].commit
    ensures c in Do(s, step).h.commits
    ensures c.term == Do(s, step).nodes[n].term && c.upto == Do(s, step).nodes[n].commit
    ensures s.nodes[n].commit < c.upto
  {
    hide Inv, NodeOk, RecordCommit;
    NodeFacts(s, n);
    CommitBelowPending(s.h, s.nodes[n]);
    c := CommitOnRecorded(s.h, s.nodes[n], step.first, step.m.upto, step.m.from);
  }

  lemma DiskStepRecorded(s: State, step: Step, n: PeerId) returns (c: Commit)
    requires Inv(s) && Enabled(s, step) && step.DiskStepStep? && step.n == n && s.nodes[n].role == Leader
    requires s.nodes[n].commit != Do(s, step).nodes[n].commit
    ensures c in Do(s, step).h.commits
    ensures c.term == Do(s, step).nodes[n].term && c.upto == Do(s, step).nodes[n].commit
    ensures s.nodes[n].commit < c.upto
  {
    hide Inv, NodeOk, CommitAt, RecordAck, RecordCommit;
    var nd := s.nodes[n];
    var done := nd.queue[0].done;
    NodeFacts(s, n);
    CommitBelowPending(s.h, nd);
    LeaderDoneHeld(s.h, nd);
    var h1 := RecordAck(s.h, Key(n, nd.term), done.last);
    c := CommitOnRecorded(h1, DiskAdvance(nd), done.first, done.last, n);
    RecordCommitSame(h1, nd, DiskAdvance(nd), done.first, done.last, n);
  }

  lemma RecordCommitSame(h: Hist, nd: Node, r: Node, first: nat, last: nat, peer: PeerId)
    requires nd.box == r.box && nd.term == r.term
    ensures RecordCommit(h, nd, first, last, peer) == RecordCommit(h, r, first, last, peer)
  {
  }

  lemma CommitBelowPending(h: Hist, nd: Node)
    requires NodeOk(h, nd.id, nd) && nd.role == Leader
    ensures nd.commit < nd.box.pending
  {
  }

  lemma CommitOnRecorded(h: Hist, nd: Node, first: nat, last: nat, peer: PeerId) returns (c: Commit)
    requires nd.commit < nd.box.pending && CommitOn(nd, first, last, peer).commit != nd.commit
    ensures c in RecordCommit(h, nd, first, last, peer).commits
    ensures c.term == nd.term && c.upto == CommitOn(nd, first, last, peer).commit && nd.commit < c.upto
  {
    CommitAtCases(nd.box, first, last, peer);
    var upto := CommitAt(nd.box, first, last, peer).committed;
    c := Commit(nd.term, upto, nd.box.ballots[upto - nd.box.pending].granted + {peer});
  }

  // ---- membership changes and requests

  /** In the log of any node, every quorum of a configuration meets every quorum of the one after it. */
  lemma NextConfigurationIsNear(run: seq<State>, i: nat, n: PeerId, q: nat)
    requires IsRun(run) && i < |run| && n in run[i].nodes
    requires q < |run[i].nodes[n].Mem()| && run[i].nodes[n].Mem()[q].payload.Conf?
    ensures Near(ConfOf(run[0].h.initial, run[i].nodes[n].Mem()[..q]), run[i].nodes[n].Mem()[q].payload.conf)
  {
    hide Inv, IsRun, NodeOk, HistOk, Grows;
    RunInv(run, 0, i);
    NodeFacts(run[i], n);
    var h, mem := run[i].h, run[i].nodes[n].Mem();
    MemHolds(h, run[i].nodes[n]);
    LogOkPrefix(h, mem, q + 1);
    assert mem[..q + 1][..q] == mem[..q];
    ConfEntryRule(h, mem[..q + 1]);
    ChangeIsNear(ConfOf(h.initial, mem[..q]), mem[q].payload.conf);
    SameInitial(run[0].h, h);
  }

  lemma SameInitial(h: Hist, g: Hist)
    requires Grows(h, g)
    ensures h.initial == g.initial
  {
  }

  /** A leader appends a configuration only after the one before it, of its own term, is committed. */
  lemma ConfigurationsCommitInOrder(run: seq<State>, i: nat, n: PeerId, p: nat, q: nat)
    requires IsRun(run) && i < |run| && n in run[i].nodes && run[i].nodes[n].role == Leader
    requires p < q < |run[i].nodes[n].Mem()|
    requires run[i].nodes[n].Mem()[p].payload.Conf? && run[i].nodes[n].Mem()[p].term == run[i].nodes[n].term
    requires run[i].nodes[n].Mem()[q].payload.Conf? && run[i].nodes[n].Mem()[q].term == run[i].nodes[n].term
    ensures p + 1 <= run[i].nodes[n].commit
  {
    hide IsRun;
    RunInv(run, i, i);
    var h, nd := run[i].h, run[i].nodes[n];
    assert NodeOk(h, n, nd);
    assert ElectionOk(h, nd.term);
    FirstConfOfTerm(h, nd, p);
    FirstConfOfTerm(h, nd, q);
    assert ConfEntryOk(h, nd.term, q);
    var c :| c in h.commits && ConfCommitted(h, nd.term, q, c);
    assert c.upto <= nd.commit;
  }

  lemma FirstConfOfTerm(h: Hist, nd: Node, p: nat)
    requires LeaderLogOk(h, nd) && ElectionOk(h, nd.term) && p < |nd.Mem()| && nd.Mem()[p].term == nd.term
    ensures |h.el[nd.term].base| <= p
  {
    var base := h.el[nd.term].base;
    assert forall i | 0 <= i < |base| :: nd.Mem()[i] == base[i];
  }

  /** A request that passes the term check always comes from the leader the node knows: the branch for a second
      leader of one term is never taken. */
  lemma SecondLeaderUnreachable(run: seq<State>, i: nat, n: PeerId, m: Message)
    requires IsRun(run) && i < |run| && n in run[i].nodes
    requires m in run[i].msgs && m.AppendReq? && m.to == n && m.term >= run[i].nodes[n].term
    ensures CheckStepDown(run[i].nodes[n], m.term, m.leader).leader == Some(m.leader)
  {
    hide IsRun, NodeOk, HistOk;
    RunInv(run, i, i);
    NodeFacts(run[i], n);
    assert MessageOk(run[i].h, m);
    OneLeaderPerTerm(run[i].h, n, run[i].nodes[n], m);
  }

  /** What a request that passes the checks does to the log of a follower: it holds the request afterwards; a request
      it already holds changes nothing, so a late or repeated one never shortens the log; and nothing committed, hence
      nothing applied, is cut off. */
  lemma AcceptedRequest(run: seq<State>, i: nat, n: PeerId, m: Message)
    requires IsRun(run) && i < |run| && n in run[i].nodes
    requires m in run[i].msgs && m.AppendReq? && m.to == n && m.term >= run[i].nodes[n].term
    requires m.prev <= |run[i].nodes[n].Mem()| && TermAt(run[i].nodes[n].Mem(), m.prev) == m.prevTerm
    ensures var nd := run[i].nodes[n]; Outcome(nd.Mem(), HandleAppend(nd, m).Mem(), m.prev, m.entries, nd.commit)
  {
    hide IsRun, NodeOk, HistOk, Grows, Outcome, FollowerAppend;
    RunInv(run, i, i);
    NodeFacts(run[i], n);
    assert MessageOk(run[i].h, m);
    var nd := run[i].nodes[n];
    OneLeaderPerTerm(run[i].h, n, nd, m);
    RequestOutcome(run[i].h, CheckStepDown(nd, m.term, m.leader), m);
  }

  /** `after` holds the request behind `mem`'s first `prev` entries, and keeps `mem` where it can. */
  ghost predicate Outcome(mem: Log, after: Log, prev: nat, entries: Log, commit: nat) {
    var last := prev + |entries|;
    && prev <= |mem| && last <= |after| && after[..prev] == mem[..prev] && after[prev..last] == entries
    && (after == mem || after == mem[..prev] + entries)
    && (last <= |mem| && mem[prev..last] == entries ==> after == mem)
    && commit <= |mem| && mem[..commit] <= after
  }

  lemma RequestOutcome(h: Hist, nd: Node, m: Message)
    requires HistOk(h) && NodeOk(h, nd.id, nd) && nd.term == m.term && m.AppendReq? && MessageOk(h, m)
    requires m.prev <= |nd.Mem()| && TermAt(nd.Mem(), m.prev) == m.prevTerm
    ensures var after := if m.entries == [] then nd.Mem() else FollowerAppend(nd, m).Mem();
            Outcome(nd.Mem(), after, m.prev, m.entries, nd.commit)
  {
    hide NodeOk, HistOk, MessageOk, FirstConflict, Outcome, Resolve, FollowerAppend, TermAt;
    FollowerAppendMem(nd, m);
    if m.entries == [] || m.prev + |m.entries| <= nd.applied
       || FirstConflict(nd.Mem(), m.prev, m.entries) == |m.entries| {
      KeptRequest(h, nd, m);
    } else {
      CutRequest(h, nd, m);
    }
  }

  lemma KeptRequest(h: Hist, nd: Node, m: Message)
    requires HistOk(h) && NodeOk(h, nd.id, nd) && nd.term == m.term && m.AppendReq? && MessageOk(h, m)
    requires m.prev <= |nd.Mem()| && TermAt(nd.Mem(), m.prev) == m.prevTerm
    requires m.entries == [] || m.prev + |m.entries| <= nd.applied
             || FirstConflict(nd.Mem(), m.prev, m.entries) == |m.entries|
    ensures Outcome(nd.Mem(), nd.Mem(), m.prev, m.entries, nd.commit)
  {
    hide NodeOk, HistOk, FirstConflict, Outcome, Resolve, Parts, TermAt, Covered;
    var mem, last, log := nd.Mem(), m.prev + |m.entries|, h.el[nd.term].log;
    RequestMatches(h, nd, m);
    RequestResolves(h, nd, m);
    CommitInMem(h, nd);
    if last <= nd.applied {
      PrefixesAgree(mem, log, nd.commit, last);
    }
    KeptOutcome(mem, log, m.prev, m.entries, nd.commit);
  }

  lemma PrefixesAgree(a: Log, b: Log, n: nat, k: nat)
    requires k <= n <= |a| && n <= |b| && a[..n] == b[..n]
    ensures a[..k] == b[..k]
  {
    assert a[..k] == a[..n][..k] == b[..n][..k];
  }

  lemma CutRequest(h: Hist, nd: Node, m: Message)
    requires HistOk(h) && NodeOk(h, nd.id, nd) && nd.term == m.term && m.AppendReq? && MessageOk(h, m)
    requires m.prev <= |nd.Mem()| && TermAt(nd.Mem(), m.prev) == m.prevTerm
    requires FirstConflict(nd.Mem(), m.prev, m.entries) < |m.entries|
    ensures Outcome(nd.Mem(), Resolve(nd.Mem(), m.prev, m.entries), m.prev, m.entries, nd.commit)
  {
    hide NodeOk, HistOk, FirstConflict, Outcome, Resolve, Parts, TermAt, Covered;
    var mem, log, j := nd.Mem(), h.el[nd.term].log, FirstConflict(nd.Mem(), m.prev, m.entries);
    RequestMatches(h, nd, m);
    RequestResolves(h, nd, m);
    CommittedIsNotCut(h, nd, m.prev + j);
    ConflictFacts(mem, m.prev, m.entries);
    CutOutcome(mem, log, m.prev, m.entries, nd.commit, j);
  }

  lemma FollowerAppendMem(nd: Node, m: Message)
    requires m.AppendReq? && m.prev <= |nd.Mem()|
    ensures FollowerAppend(nd, m).Mem() ==
              if m.prev + |m.entries| <= nd.applied || FirstConflict(nd.Mem(), m.prev, m.entries) == |m.entries|
              then nd.Mem() else Resolve(nd.Mem(), m.prev, m.entries)
  {
    hide FirstConflict;
  }

  lemma KeptOutcome(mem: Log, log: Log, prev: nat, entries: Log, commit: nat)
    requires prev + |entries| <= |mem| && prev + |entries| <= |log| && commit <= |mem|
    requires entries == log[prev..prev + |entries|] && mem[..prev + |entries|] == log[..prev + |entries|]
    ensures Outcome(mem, mem, prev, entries, commit)
  {
    var last := prev + |entries|;
    assert mem[prev..last] == mem[..last][prev..] == log[..last][prev..] == entries;
  }

  lemma CutOutcome(mem: Log, log: Log, prev: nat, entries: Log, commit: nat, j: nat)
    requires prev <= |mem| && prev + |entries| <= |log| && commit <= prev + j && j < |entries|
    requires entries == log[prev..prev + |entries|] && mem[..prev] == log[..prev]
    requires Parts(mem, log, prev + j) && (prev + j < |mem| ==> mem[prev + j].term != entries[j].term)
    ensures Outcome(mem, log[..prev + |entries|], prev, entries, commit)
  {
    var last, after := prev + |entries|, log[..prev + |entries|];
    assert after == mem[..prev] + entries;
    assert mem[..commit] == mem[..prev + j][..commit] == log[..prev + j][..commit] == after[..commit];
    assert last <= |mem| ==> mem[prev..last][j] == mem[prev + j];
  }

  lemma CommitInMem(h: Hist, nd: Node)
    requires HistOk(h) && NodeOk(h, nd.id, nd) && nd.term in h.el
    ensures nd.applied <= nd.commit <= |nd.Mem()| && nd.commit <= |h.el[nd.term].log|
    ensures nd.Mem()[..nd.commit] == h.el[nd.term].log[..nd.commit]
  {
    CoveredInLeader(h, nd.Mem(), nd.commit, nd.term, nd.term);
  }
}
