/** The steps of a leader keep the invariant: client tasks, membership changes, sending entries. */
module StepsLeader {
  import opened Types
  import opened Quorum
  import opened BallotSpec
  import opened NodeSpec
  import opened Protocol
  import opened Invariant
  import opened Completeness
  import opened Growth
  import opened StepsNode

  // ---- extending the leader's log

  /** A configuration entry may stand at `p`: one change away, after a commit of the configuration before. */
  ghost predicate ConfAllowed(h: Hist, t: nat, base: nat, log: Log, p: nat)
    requires p < |log|
  {
    log[p].payload.Conf? ==>
      && IsChange(ConfOf(h.initial, log[..p]), log[p].payload.conf)
      && exists c :: c in h.commits && c.term == t && base < c.upto <= p && NoConf(log, c.upto, p)
  }

  lemma ExtendLog(h: Hist, t: nat, log: Log) returns (g: Hist)
    requires HistOk(h) && t in h.el && h.el[t].log <= log
    requires forall i | |h.el[t].log| <= i < |log| :: log[i].term == t
    requires forall p {:trigger ConfAllowed(h, t, |h.el[t].base|, log, p)} | |h.el[t].log| <= p < |log| ::
               ConfAllowed(h, t, |h.el[t].base|, log, p)
    ensures g == h.(el := h.el[t := h.el[t].(log := log)])
    ensures HistOk(g) && Grows(h, g)
    ensures forall m | m != h.el[t].leader :: SameFor(h, g, m)
  {
    g := h.(el := h.el[t := h.el[t].(log := log)]);
    forall u | u in h.el
      ensures ElectionGrows(h, g, u)
    {
    }
    assert Grows(h, g);
    assert ElectionOk(h, t);
    ExtendedElectionOk(h, g, t, log);
    forall k | k in g.acks
      ensures AckOk(g, k)
    {
      assert AckOk(h, k);
    }
    HistOkGrows(h, g);
  }

  lemma ExtendedElectionOk(h: Hist, g: Hist, t: nat, log: Log)
    requires Grows(h, g) && t in h.el && ElectionOk(h, t) && h.el[t].log <= log
    requires g == h.(el := h.el[t := h.el[t].(log := log)])
    requires forall i | |h.el[t].log| <= i < |log| :: log[i].term == t
    requires forall p {:trigger ConfAllowed(h, t, |h.el[t].base|, log, p)} | |h.el[t].log| <= p < |log| ::
               ConfAllowed(h, t, |h.el[t].base|, log, p)
    ensures ElectionOk(g, t)
  {
    var e := h.el[t];
    LogOkGrows(h, g, e.log);
    forall i | 0 <= i < |log|
      ensures EntryOk(g, log, i)
    {
      if i < |e.log| {
        assert EntryOk(g, e.log, i);
        assert log[..i + 1] == e.log[..i + 1];
      }
    }
    assert log[..|e.base|] == e.base;
    forall p | |e.base| <= p < |log|
      ensures ConfEntryOk(g, t, p)
    {
      if p < |e.log| {
        assert ConfEntryOk(h, t, p);
        assert ElectionGrows(h, g, t);
        ConfEntryOkGrows(h, g, t, p);
      } else {
        assert ConfAllowed(h, t, |e.base|, log, p);
        if log[p].payload.Conf? {
          var c :| c in h.commits && c.term == t && |e.base| < c.upto <= p && NoConf(log, c.upto, p);
          assert ConfCommitted(g, t, p, c);
        }
      }
    }
    forall v | v in e.voters
      ensures VoteFor(g, v, t, e.leader) && Keeps(g, g.votes[Key(v, t)].candLog, e.base, t)
      ensures !g.votes[Key(v, t)].late
    {
      assert VoteFor(h, v, t, e.leader);
      KeepsGrows(h, g, h.votes[Key(v, t)].candLog, e.base, e.base, t, t);
    }
  }

  /** All entries of an append are decided by `conf`. */
  ghost predicate DecidedBy(initial: Config, mem: Log, entries: Log, conf: Config) {
    forall k {:trigger entries[..k]} | 0 < k <= |entries| :: ConfOf(initial, mem + entries[..k]) == conf
  }

  /** A leader between two stages of a membership change: all of the invariant but the stage itself. */
  ghost predicate LeaderNode(h: Hist, nd: Node) {
    && nd.initial == h.initial && nd.role == Leader
    && VersionsOk(h, nd) && RecallOk(h, nd.id, nd.durable, nd.queue, nd.term)
    && PromisesOk(h, nd) && QueueOk(h, nd) && DoneTermsOk(nd)
    && nd.applied <= nd.commit && Covered(h, nd.Mem(), nd.commit, nd.term)
    && LeaderLogOk(h, nd)
  }

  lemma LeaderNodeCtx(h: Hist, nd: Node, ctx: ChangeCtx)
    requires NodeOk(h, nd.id, nd) && nd.role == Leader
    ensures LeaderNode(h, nd.(ctx := ctx))
  {
    var r := nd.(ctx := ctx);
    assert forall k | 0 <= k <= |nd.queue| :: r.Version(k) == nd.Version(k);
    forall k | 0 <= k <= |r.queue|
      ensures VersionOk(h, r, k)
    {
      assert VersionOk(h, nd, k);
    }
    QueueOkSame(h, nd, r);
    forall j | 0 <= j < |r.box.ballots|
      ensures BallotOk(h, r, j)
    {
      assert BallotOk(h, nd, j);
    }
  }

  lemma LeaderAppendVersions(h: Hist, g: Hist, nd: Node, entries: Log, conf: Config)
    requires HistOk(h) && HistOk(g) && Grows(h, g) && VersionsOk(h, nd) && nd.term in h.el
    requires g == h.(el := h.el[nd.term := h.el[nd.term].(log := nd.Mem() + entries)])
    ensures VersionsOk(g, LeaderAppend(nd, entries, conf))
  {
    var r := LeaderAppend(nd, entries, conf);
    forall k | 0 <= k <= |r.queue|
      ensures VersionOk(g, r, k)
    {
      if k <= |nd.queue| {
        VersionHolds(h, nd, k);
        HoldsPromisesGrows(h, g, nd.id, nd.Version(k), nd.term);
        assert r.Version(k) == nd.Version(k);
      } else {
        assert r.Version(k) == nd.Mem() + entries;
        LeaderAppendMem(h, g, nd, entries);
      }
    }
  }

  lemma LeaderAppendMem(h: Hist, g: Hist, nd: Node, entries: Log)
    requires HistOk(h) && HistOk(g) && Grows(h, g) && VersionsOk(h, nd) && nd.term in h.el
    requires g == h.(el := h.el[nd.term := h.el[nd.term].(log := nd.Mem() + entries)])
    ensures HoldsPromises(g, nd.id, nd.Mem() + entries, nd.term)
  {
    VersionHolds(h, nd, |nd.queue|);
    assert nd.Version(|nd.queue|) == nd.Mem();
    HoldsPromisesGrows(h, g, nd.id, nd.Mem(), nd.term);
    assert ElectionOk(g, nd.term);
    LeaderTermsBelow(g, nd.term);
    HoldsPromisesExtend(g, nd.id, nd.Mem(), nd.Mem() + entries, nd.term);
  }

  lemma LeaderAppendRecall(h: Hist, g: Hist, nd: Node, entries: Log, conf: Config)
    requires Grows(h, g) && RecallOk(h, nd.id, nd.durable, nd.queue, nd.term) && g.held == h.held
    ensures var r := LeaderAppend(nd, entries, conf); RecallOk(g, r.id, r.durable, r.queue, r.term)
  {
    var r := LeaderAppend(nd, entries, conf);
    RecallGrows(h, g, nd.id, nd.durable, nd.queue, nd.term, nd.term);
    InheritsExtend(g, nd.Mem(), nd.Mem() + entries, nd.term + 1);
    assert VersionAt(nd.durable, nd.queue, |nd.queue|) == nd.Mem();
    RecallAdd(g, nd.id, nd.durable, nd.queue, nd.term, r.queue[|nd.queue|]);
  }

  lemma LeaderTermsBelow(h: Hist, t: nat)
    requires t in h.el && ElectionOk(h, t)
    ensures TermsBelow(h.el[t].log, t + 1)
  {
    var e := h.el[t];
    forall i | 0 <= i < |e.log|
      ensures e.log[i].term < t + 1
    {
      if i < |e.base| {
        assert e.base[i] == e.log[i];
      }
    }
  }

  lemma LeaderAppendBox(h: Hist, g: Hist, nd: Node, entries: Log, conf: Config)
    requires Grows(h, g) && nd.term in h.el && h.el[nd.term].log == nd.Mem() && BoxOk(h, nd)
    requires g == h.(el := h.el[nd.term := h.el[nd.term].(log := nd.Mem() + entries)])
    requires DecidedBy(h.initial, nd.Mem(), entries, conf)
    ensures BoxOk(g, LeaderAppend(nd, entries, conf))
  {
    hide ConfOf, Grows;
    var r := LeaderAppend(nd, entries, conf);
    var log := nd.Mem() + entries;
    forall j | 0 <= j < |r.box.ballots|
      ensures BallotOk(g, r, j)
    {
      if j < |nd.box.ballots| {
        assert BallotOk(h, nd, j);
        assert log[..nd.box.pending + j] == nd.Mem()[..nd.box.pending + j];
      } else {
        var k := j - |nd.box.ballots| + 1;
        assert log[..nd.box.pending + j] == nd.Mem() + entries[..k];
      }
    }
  }

  /** The leader after appending entries that its ballots know how to decide. */
  lemma LeaderAppendOk(h: Hist, g: Hist, nd: Node, entries: Log, conf: Config)
    requires HistOk(h) && HistOk(g) && Grows(h, g) && LeaderNode(h, nd)
    requires g == h.(el := h.el[nd.term := h.el[nd.term].(log := nd.Mem() + entries)])
    requires DecidedBy(h.initial, nd.Mem(), entries, conf)
    requires CtxOk(g, LeaderAppend(nd, entries, conf))
    requires LastConfIndex(nd.Mem() + entries) > |h.el[nd.term].base|
    ensures NodeOk(g, nd.id, LeaderAppend(nd, entries, conf))
  {
    var r := LeaderAppend(nd, entries, conf);
    LeaderAppendVersions(h, g, nd, entries, conf);
    LeaderAppendRecall(h, g, nd, entries, conf);
    CoveredGrows(h, g, nd.Mem(), r.Mem(), nd.commit, nd.term, nd.term);
    LeaderAppendQueue(h, g, nd, entries, conf);
    assert PromisesOk(g, r);
    LeaderAppendBox(h, g, nd, entries, conf);
    LeaderAppendChain(nd, entries, conf);
  }

  lemma LeaderAppendQueue(h: Hist, g: Hist, nd: Node, entries: Log, conf: Config)
    requires LeaderNode(h, nd)
    ensures QueueOk(g, LeaderAppend(nd, entries, conf)) && DoneTermsOk(LeaderAppend(nd, entries, conf))
  {
    var r := LeaderAppend(nd, entries, conf);
    forall k | 0 <= k < |r.queue|
      ensures r.queue[k].done.LeaderDone? && ItemOk(g, r, k)
    {
    }
    forall k, l | 0 <= k <= l < |r.queue|
      ensures ItemHeld(g, r, k, l)
    {
      assert r.queue[k].done.LeaderDone?;
    }
    forall d | d in r.ready
      ensures ReadyOk(g, r, d)
    {
      assert ReadyOk(h, nd, d);
    }
  }

  /** The versions of a leader's log stay an ascending chain below its memory. */
  lemma LeaderAppendChain(nd: Node, entries: Log, conf: Config)
    requires forall k | 0 <= k <= |nd.queue| :: nd.Version(k) <= nd.Mem()
    requires forall k, l | 0 <= k < l <= |nd.queue| :: |nd.Version(k)| <= |nd.Version(l)|
    ensures var r := LeaderAppend(nd, entries, conf);
            && (forall k | 0 <= k <= |r.queue| :: r.Version(k) <= r.Mem())
            && (forall k, l | 0 <= k < l <= |r.queue| :: |r.Version(k)| <= |r.Version(l)|)
  {
    var r := LeaderAppend(nd, entries, conf);
    assert forall k | 0 <= k <= |nd.queue| :: r.Version(k) == nd.Version(k);
    assert r.Version(|r.queue|) == r.Mem() == nd.Mem() + entries;
    forall k | 0 <= k <= |r.queue|
      ensures r.Version(k) <= r.Mem() && |r.Version(k)| <= |r.Mem()|
    {
      if k <= |nd.queue| {
        assert nd.Version(k) <= nd.Mem();
      }
    }
  }

  // ---- client tasks

  lemma {:induction false} LastConfIndexAppend(log: Log, m: nat)
    requires m <= |log| && NoConf(log, m, |log|)
    ensures LastConfIndex(log) == LastConfIndex(log[..m])
    decreases |log|
  {
    if m == |log| {
      assert log[..m] == log;
    } else {
      var shorter := log[..|log| - 1];
      LastConfIndexAppend(shorter, m);
      assert shorter[..m] == log[..m];
    }
  }

  /** Data entries leave the configuration alone. */
  lemma DataPart(initial: Config, mem: Log, entries: Log, k: nat)
    requires k <= |entries| && forall i | 0 <= i < |entries| :: entries[i].payload.Data?
    ensures var part := mem + entries[..k]; NoConf(part, |mem|, |part|) && ConfOf(initial, part) == ConfOf(initial, mem)
  {
    var part := mem + entries[..k];
    assert part[..|mem|] == mem && NoConf(part, |mem|, |part|);
    ConfOfNoConf(initial, part, |mem|);
  }

  lemma ApplyTasksStepOk(s: State, step: Step)
    requires Inv(s) && Enabled(s, step) && step.ApplyTasksStep?
    ensures Preserves(s, step)
  {
    hide Keeps, LogOk, Covered, RecallOk, HistOk;
    var nd, h := s.nodes[step.n], s.h;
    assert NodeOk(h, step.n, nd);
    var entries := seq(|step.values|, i requires 0 <= i < |step.values| => Entry(nd.term, Data(step.values[i])));
    var r := ApplyTasks(nd, step.values);
    var log := nd.Mem() + entries;
    assert r == LeaderAppend(nd, entries, nd.Conf());
    assert r.Mem() == log;
    var g := ExtendLog(h, nd.term, log);
    forall k | 0 <= k <= |entries|
      ensures ConfOf(h.initial, nd.Mem() + entries[..k]) == nd.Conf()
    {
      DataPart(h.initial, nd.Mem(), entries, k);
    }
    DataPart(h.initial, nd.Mem(), entries, |entries|);
    assert entries[..|entries|] == entries && log[..|nd.Mem()|] == nd.Mem();
    LastConfIndexAppend(log, |nd.Mem()|);
    LeaderNodeCtx(h, nd, nd.ctx);
    LeaderAppendOk(h, g, nd, entries, nd.Conf());
  }

  // ---- configuration entries

  lemma {:induction false} NoConfAfterLast(log: Log, m: nat)
    requires LastConfIndex(log) <= m <= |log|
    ensures NoConf(log, m, |log|)
    decreases |log|
  {
    if m < |log| {
      var shorter := log[..|log| - 1];
      NoConfAfterLast(shorter, m);
      assert forall i | m <= i < |shorter| :: shorter[i] == log[i];
    }
  }

  /** Once the last configuration entry is committed, it was committed in the leader's own term. */
  lemma OwnCommit(h: Hist, nd: Node) returns (c: Commit)
    requires HistOk(h) && NodeOk(h, nd.id, nd) && nd.role == Leader && LastConfIndex(nd.Mem()) <= nd.commit
    ensures c in h.commits && c.term == nd.term
    ensures |h.el[nd.term].base| < c.upto <= |nd.Mem()| && NoConf(nd.Mem(), c.upto, |nd.Mem()|)
  {
    c :| c in h.commits && CoveredBy(h, nd.Mem(), nd.commit, nd.term, c);
    LeaderHoldsCommit(h, c, nd.term);
    NoConfAfterLast(nd.Mem(), nd.commit);
  }

  /** Appending a configuration entry, once the previous one is committed. */
  lemma ApplyConfigurationOk(h: Hist, nd: Node, ctx: ChangeCtx, conf: Config) returns (g: Hist)
    requires HistOk(h) && NodeOk(h, nd.id, nd) && nd.role == Leader && LastConfIndex(nd.Mem()) <= nd.commit
    requires IsChange(nd.Conf(), conf)
    requires ctx.stage in {Joint, Stable}
    requires conf == if ctx.stage == Joint then Config(ctx.newPeers, ctx.oldPeers) else Config(ctx.newPeers, {})
    ensures g == RecordLog(h, ApplyConfiguration(nd.(ctx := ctx), conf))
    ensures HistOk(g) && Grows(h, g)
    ensures forall m | m != nd.id :: SameFor(h, g, m)
    ensures NodeOk(g, nd.id, ApplyConfiguration(nd.(ctx := ctx), conf))
  {
    hide Keeps, LogOk, RecallOk, QueueOk, PromisesOk, Covered, SameFor, Grows;
    var entries := [Entry(nd.term, Payload.Conf(conf))];
    var mid := nd.(ctx := ctx);
    var r := ApplyConfiguration(mid, conf);
    var log := nd.Mem() + entries;
    assert r.Mem() == log;
    var c := OwnCommit(h, nd);
    assert log[..|nd.Mem()|] == nd.Mem();
    assert NoConf(log, c.upto, |nd.Mem()|);
    assert ConfAllowed(h, nd.term, |h.el[nd.term].base|, log, |nd.Mem()|);
    g := ExtendLog(h, nd.term, log);
    LeaderNodeCtx(h, nd, ctx);
    ConfigurationDecides(h.initial, nd.Mem(), entries[0], conf);
    assert mid.Mem() == nd.Mem();
    LeaderAppendOk(h, g, mid, entries, conf);
  }

  lemma ConfigurationDecides(initial: Config, mem: Log, entry: Entry, conf: Config)
    requires entry.payload == Payload.Conf(conf)
    ensures DecidedBy(initial, mem, [entry], conf)
    ensures ConfOf(initial, mem + [entry]) == conf && LastConfIndex(mem + [entry]) == |mem| + 1
  {
    assert [entry][..1] == [entry];
  }

  // ---- the stages of a membership change

  lemma CtxChangeOk(h: Hist, nd: Node, ctx: ChangeCtx)
    requires NodeOk(h, nd.id, nd) && nd.role == Leader && CtxOk(h, nd.(ctx := ctx))
    ensures NodeOk(h, nd.id, nd.(ctx := ctx))
  {
    LeaderNodeCtx(h, nd, ctx);
  }

  lemma RecordSame(h: Hist, nd: Node)
    requires nd.role == Leader ==> nd.term in h.el && h.el[nd.term].log == nd.Mem()
    ensures RecordLog(h, nd) == h
  {
    if nd.role == Leader {
      assert h.el[nd.term := h.el[nd.term]] == h.el;
    }
  }

  /** Moving to the next stage: the configuration before it is committed, the new one is one change away. */
  lemma NextStageOk(h: Hist, nd: Node) returns (g: Hist)
    requires HistOk(h) && NodeOk(h, nd.id, nd) && nd.role == Leader && nd.ctx.stage != Idle
    requires LastConfIndex(nd.Mem()) <= nd.commit
    ensures g == RecordLog(h, NextStage(nd))
    ensures HistOk(g) && Grows(h, g)
    ensures forall m | m != nd.id :: SameFor(h, g, m)
    ensures NodeOk(g, nd.id, NextStage(nd))
  {
    hide HistOk, ConfOf, Grows, SameFor;
    match nd.ctx.stage
    case CatchingUp =>
      if nd.ctx.nchanges > 1 {
        g := ApplyConfigurationOk(h, nd, nd.ctx.(stage := Joint), Config(nd.ctx.newPeers, nd.ctx.oldPeers));
      } else {
        g := ApplyConfigurationOk(h, nd, nd.ctx.(stage := Stable), Config(nd.ctx.newPeers, {}));
      }
    case Joint =>
      g := ApplyConfigurationOk(h, nd, nd.ctx.(stage := Stable), Config(nd.ctx.newPeers, {}));
    case Stable =>
      g := h;
      NothingNew(h);
      CtxChangeOk(h, nd, NoChange);
      var done := nd.(ctx := NoChange);
      StepDownOk(h, nd.id, done, nd.term);
      RecordSame(h, NextStage(nd));
  }

  lemma LeaderFacts(h: Hist, nd: Node)
    requires NodeOk(h, nd.id, nd) && nd.role == Leader
    ensures nd.term in h.el && h.el[nd.term].log == nd.Mem()
    ensures nd.ctx.stage in {Idle, CatchingUp} ==> LastConfIndex(nd.Mem()) <= nd.commit
  {
  }

  /** The context of a change that has just started. */
  function StartCtx(nd: Node, peers: set<PeerId>): ChangeCtx {
    var oldPeers := nd.Conf().peers;
    ChangeCtx(CatchingUp, peers, oldPeers, peers - oldPeers, |peers - oldPeers| + |oldPeers - peers|)
  }

  lemma StartCtxOk(h: Hist, nd: Node, peers: set<PeerId>)
    requires NodeOk(h, nd.id, nd) && nd.role == Leader && nd.ctx.stage == Idle
    ensures NodeOk(h, nd.id, nd.(ctx := StartCtx(nd, peers)))
  {
    CtxChangeOk(h, nd, StartCtx(nd, peers));
  }

  lemma StartChangeOk(h: Hist, nd: Node, peers: set<PeerId>) returns (g: Hist)
    requires HistOk(h) && NodeOk(h, nd.id, nd) && nd.role == Leader && nd.ctx.stage == Idle
    ensures g == RecordLog(h, StartChange(nd, peers))
    ensures HistOk(g) && Grows(h, g)
    ensures forall m | m != nd.id :: SameFor(h, g, m)
    ensures NodeOk(g, nd.id, StartChange(nd, peers))
  {
    hide NodeOk, HistOk, Grows, NextStage, RecordLog, ConfOf, LastConfIndex;
    var ctx := StartCtx(nd, peers);
    StartCtxOk(h, nd, peers);
    LeaderFacts(h, nd);
    if ctx.adding == {} {
      g := NextStageOk(h, nd.(ctx := ctx));
    } else {
      g := h;
      GrowsReflexive(h);
      RecordSame(h, nd.(ctx := ctx));
    }
  }

  lemma StartChangeStepOk(s: State, step: Step)
    requires Inv(s) && Enabled(s, step) && step.StartChangeStep?
    ensures Preserves(s, step)
  {
    hide Inv, NodeOk, HistOk, Grows, SameFor, StartChange;
    NodeFacts(s, step.n);
    var g := StartChangeOk(s.h, s.nodes[step.n], step.peers);
  }

  lemma CaughtUpOk(h: Hist, nd: Node, peer: PeerId, ok: bool) returns (g: Hist)
    requires HistOk(h) && NodeOk(h, nd.id, nd) && nd.role == Leader && nd.ctx.stage == CatchingUp
    ensures g == RecordLog(h, OnCaughtUp(nd, peer, ok))
    ensures HistOk(g) && Grows(h, g)
    ensures forall m | m != nd.id :: SameFor(h, g, m)
    ensures NodeOk(g, nd.id, OnCaughtUp(nd, peer, ok))
  {
    var ctx := if ok then nd.ctx.(adding := nd.ctx.adding - {peer}) else NoChange;
    CtxChangeOk(h, nd, ctx);
    LeaderFacts(h, nd);
    hide NodeOk, HistOk;
    if ok && ctx.adding == {} {
      g := NextStageOk(h, nd.(ctx := ctx));
    } else {
      g := h;
      GrowsReflexive(h);
      RecordSame(h, nd.(ctx := ctx));
    }
  }

  lemma CaughtUpStepOk(s: State, step: Step)
    requires Inv(s) && Enabled(s, step) && step.CaughtUpStep?
    ensures Preserves(s, step)
  {
    hide Inv, NodeOk, HistOk, Grows, SameFor, OnCaughtUp;
    NodeFacts(s, step.n);
    var g := CaughtUpOk(s.h, s.nodes[step.n], step.peer, step.ok);
  }

  lemma ConfCommittedStepOk(s: State, step: Step)
    requires Inv(s) && Enabled(s, step) && step.ConfCommittedStep?
    ensures Preserves(s, step)
  {
    hide Inv, NodeOk, HistOk, Grows, SameFor, NextStage;
    var nd, h := s.nodes[step.n], s.h;
    NodeFacts(s, step.n);
    var g := NextStageOk(h, nd);
  }

  // ---- sending entries

  lemma SendAppendStepOk(s: State, step: Step)
    requires Inv(s) && Enabled(s, step) && step.SendAppendStep?
    ensures Preserves(s, step)
  {
    var nd, h := s.nodes[step.n], s.h;
    assert NodeOk(h, step.n, nd);
    GrowsReflexive(h);
    assert MessageOk(h, SendAppend(nd, step.to, step.prev, step.count));
  }
}
