/** Steps that only concern the node itself: stepping down, restarting, and changes of its log versions. */
module StepsNode {
  import opened Types
  import opened Quorum
  import opened BallotSpec
  import opened NodeSpec
  import opened Protocol
  import opened Invariant
  import opened Completeness
  import opened Growth

  /** What a step has to establish. */
  ghost predicate Preserves(s: State, step: Step)
    requires Enabled(s, step)
  {
    var e := Run(s, step);
    && HistOk(e.h) && Grows(s.h, e.h)
    && (forall m | m in s.nodes && m != step.n :: SameFor(s.h, e.h, m))
    && NodeOk(e.h, step.n, e.nd)
    && (forall m {:trigger MessageOk(e.h, m)} | m in e.sent :: MessageOk(e.h, m))
  }

  lemma PreservesInv(s: State, step: Step)
    requires Inv(s) && Enabled(s, step) && Preserves(s, step)
    ensures Inv(Do(s, step))
  {
    hide Run, Enabled, NodeOk, MessageOk, AckOk, Grows, SameFor;
    var e, t := Run(s, step), Do(s, step);
    forall n | n in t.nodes
      ensures NodeOk(t.h, n, t.nodes[n])
    {
      if n != step.n {
        assert NodeOk(s.h, n, s.nodes[n]);
        NodeOkGrows(s.h, t.h, n, s.nodes[n]);
      }
    }
    forall m | m in t.msgs
      ensures MessageOk(t.h, m)
    {
      if m !in e.sent {
        assert MessageOk(s.h, m);
        MessageOkGrows(s.h, t.h, m);
      }
    }
  }

  lemma NodeFacts(s: State, n: PeerId)
    requires Inv(s) && n in s.nodes
    ensures HistOk(s.h) && NodeOk(s.h, n, s.nodes[n]) && s.nodes[n].id == n
  {
    assert NodeOk(s.h, n, s.nodes[n]);
  }

  lemma GrowsReflexive(h: Hist)
    ensures Grows(h, h)
  {
    forall t | t in h.el
      ensures ElectionGrows(h, h, t)
    {
    }
  }

  // ---- log versions

  /** A log that may stand on the disk of the node in `term`: it keeps what the node promised. */
  ghost predicate HoldsPromises(h: Hist, id: PeerId, log: Log, term: nat) {
    && LogOk(h, log) && TermsBelow(log, term + 1)
    && (forall a {:trigger AckOk(h, a)} | a in h.acks && a.peer == id && AckOk(h, a) ::
          Keeps(h, AckedLog(h, a), log, term + 1))
    && (forall c | c in h.cands && c.cand == id && c.term == term + 1 :: Keeps(h, c.log, log, term + 1))
  }

  lemma HoldsPromisesLater(h: Hist, id: PeerId, log: Log, term: nat, later: nat)
    requires HoldsPromises(h, id, log, term) && term < later
    requires forall c | c in h.cands && c.cand == id :: c.term <= term + 1
    ensures HoldsPromises(h, id, log, later)
  {
    GrowsReflexive(h);
    forall a | a in h.acks && a.peer == id && AckOk(h, a)
      ensures Keeps(h, AckedLog(h, a), log, later + 1)
    {
      KeepsGrows(h, h, AckedLog(h, a), log, log, term + 1, later + 1);
    }
  }

  lemma HoldsPromisesGrows(h: Hist, g: Hist, id: PeerId, log: Log, term: nat)
    requires Grows(h, g) && HoldsPromises(h, id, log, term)
    requires forall a {:trigger AckOk(h, a)} | a in h.acks :: AckOk(h, a)
    requires forall a | a in g.acks && a.peer == id :: a in h.acks && g.acks[a] == h.acks[a]
    requires forall c | c in g.cands && c.cand == id && c.term == term + 1 :: c in h.cands
    ensures HoldsPromises(g, id, log, term)
  {
    LogOkGrows(h, g, log);
    forall a | a in g.acks && a.peer == id && AckOk(g, a)
      ensures Keeps(g, AckedLog(g, a), log, term + 1)
    {
      assert AckOk(h, a);
      assert ElectionGrows(h, g, a.term);
      assert AckedLog(g, a) == AckedLog(h, a);
      KeepsGrows(h, g, AckedLog(h, a), log, log, term + 1, term + 1);
    }
    forall c | c in g.cands && c.cand == id && c.term == term + 1
      ensures Keeps(g, c.log, log, term + 1)
    {
      KeepsGrows(h, g, c.log, log, log, term + 1, term + 1);
    }
  }

  lemma VersionHolds(h: Hist, nd: Node, k: nat)
    requires VersionsOk(h, nd) && k <= |nd.queue|
    ensures HoldsPromises(h, nd.id, nd.Version(k), nd.term)
  {
    assert VersionOk(h, nd, k);
  }

  lemma MemHolds(h: Hist, nd: Node)
    requires NodeOk(h, nd.id, nd)
    ensures HoldsPromises(h, nd.id, nd.Mem(), nd.term)
  {
    VersionHolds(h, nd, |nd.queue|);
    assert nd.Version(|nd.queue|) == nd.Mem();
  }

  /** A longer log that extends a good one is good as long as its entries are. */
  lemma HoldsPromisesExtend(h: Hist, id: PeerId, log: Log, longer: Log, term: nat)
    requires HoldsPromises(h, id, log, term) && log <= longer
    requires LogOk(h, longer) && TermsBelow(longer, term + 1)
    ensures HoldsPromises(h, id, longer, term)
  {
    GrowsReflexive(h);
    forall a | a in h.acks && a.peer == id && AckOk(h, a)
      ensures Keeps(h, AckedLog(h, a), longer, term + 1)
    {
      KeepsGrows(h, h, AckedLog(h, a), log, longer, term + 1, term + 1);
    }
    forall c | c in h.cands && c.cand == id && c.term == term + 1
      ensures Keeps(h, c.log, longer, term + 1)
    {
      KeepsGrows(h, h, c.log, log, longer, term + 1, term + 1);
    }
  }

  // ---- what a node recalls

  /** Whatever `a` keeps, `b` keeps. */
  ghost predicate Inherits(h: Hist, a: Log, b: Log, bound: nat) {
    forall x {:trigger Keeps(h, x, b, bound)} :: Keeps(h, x, a, bound) ==> Keeps(h, x, b, bound)
  }

  lemma InheritsExtend(h: Hist, a: Log, b: Log, bound: nat)
    requires a <= b
    ensures Inherits(h, a, b, bound)
  {
    GrowsReflexive(h);
    forall x | Keeps(h, x, a, bound)
      ensures Keeps(h, x, b, bound)
    {
      KeepsGrows(h, h, x, a, b, bound, bound);
    }
  }

  /** One more version that keeps what the one before it keeps. */
  lemma RecallAdd(h: Hist, id: PeerId, durable: Log, queue: seq<DiskItem>, term: nat, item: DiskItem)
    requires RecallOk(h, id, durable, queue, term)
    requires Inherits(h, VersionAt(durable, queue, |queue|), item.log, term + 1)
    ensures RecallOk(h, id, durable, queue + [item], term)
  {
    var n, more := |queue|, queue + [item];
    assert forall k | 0 <= k <= n :: VersionAt(durable, more, k) == VersionAt(durable, queue, k);
    assert VersionAt(durable, more, n + 1) == item.log;
    forall j, k | 0 <= j <= k <= n + 1
      ensures Keeps(h, VersionAt(durable, more, j), VersionAt(durable, more, k), term + 1)
    {
      if j == n + 1 {
        KeepsPrefix(h, item.log, item.log, term + 1);
      } else if k == n + 1 {
        assert Keeps(h, VersionAt(durable, queue, j), VersionAt(durable, queue, n), term + 1);
      }
    }
    forall x | x in h.held && x.peer == id
      ensures HoldingOk(h, x, durable, more, term)
    {
      assert HoldingOk(h, x, durable, queue, term);
      assert Keeps(h, x.log, VersionAt(durable, queue, n), term + 1);
    }
  }

  /** The disk has run the first operation. */
  lemma RecallDrop(h: Hist, id: PeerId, durable: Log, queue: seq<DiskItem>, term: nat)
    requires RecallOk(h, id, durable, queue, term) && queue != []
    ensures RecallOk(h, id, queue[0].log, queue[1..], term)
  {
    var rest := queue[1..];
    assert forall k | 0 <= k <= |rest| :: VersionAt(queue[0].log, rest, k) == VersionAt(durable, queue, k + 1);
    forall x | x in h.held && x.peer == id
      ensures HoldingOk(h, x, queue[0].log, rest, term)
    {
      assert HoldingOk(h, x, durable, queue, term);
    }
  }

  /** A restart on a log that inherits from a version. */
  lemma RecallRestart(h: Hist, id: PeerId, durable: Log, queue: seq<DiskItem>, term: nat, k: nat, log: Log)
    requires RecallOk(h, id, durable, queue, term) && k <= |queue|
    requires Inherits(h, VersionAt(durable, queue, k), log, term + 1)
    ensures RecallOk(h, id, log, [], term)
  {
    KeepsPrefix(h, log, log, term + 1);
    forall x | x in h.held && x.peer == id
      ensures HoldingOk(h, x, log, [], term)
    {
      assert HoldingOk(h, x, durable, queue, term);
      assert Keeps(h, x.log, VersionAt(durable, queue, k), term + 1);
    }
  }

  // ---- stepping down

  lemma StepDownVersions(h: Hist, nd: Node, term: nat)
    requires VersionsOk(h, nd) && PromisesOk(h, nd)
    ensures VersionsOk(h, StepDown(nd, term))
  {
    var r := StepDown(nd, term);
    forall k | 0 <= k <= |r.queue|
      ensures VersionOk(h, r, k)
    {
      VersionHolds(h, nd, k);
      if term > nd.term {
        HoldsPromisesLater(h, nd.id, nd.Version(k), nd.term, term);
      }
      assert r.Version(k) == nd.Version(k);
    }
  }

  lemma StepDownQueue(h: Hist, nd: Node, term: nat)
    requires QueueOk(h, nd) && DoneTermsOk(nd)
    ensures QueueOk(h, StepDown(nd, term)) && DoneTermsOk(StepDown(nd, term))
  {
    if term > nd.term {
      QueueOkLater(h, nd, StepDown(nd, term));
    } else {
      QueueOkSame(h, nd, StepDown(nd, term));
    }
  }

  lemma StepDownOk(h: Hist, id: PeerId, nd: Node, term: nat)
    requires HistOk(h) && NodeOk(h, id, nd)
    ensures NodeOk(h, id, StepDown(nd, term))
  {
    StepDownVersions(h, nd, term);
    StepDownQueue(h, nd, term);
    GrowsReflexive(h);
    var r := StepDown(nd, term);
    RecallGrows(h, h, id, nd.durable, nd.queue, nd.term, r.term);
    CoveredGrows(h, h, nd.Mem(), nd.Mem(), nd.commit, nd.term, r.term);
    assert PromisesOk(h, r);
  }

  // ---- restarting

  lemma RestartOk(h: Hist, id: PeerId, nd: Node, durable: Log)
    requires HistOk(h) && NodeOk(h, id, nd) && HoldsPromises(h, id, durable, nd.term)
    requires RecallOk(h, id, durable, [], nd.term)
    ensures NodeOk(h, id, Restart(nd, durable))
  {
    var r := Restart(nd, durable);
    assert VersionOk(h, r, 0);
    assert PromisesOk(h, r);
  }

  /** Whatever part of the queue had reached the disk, an operation stopped in the middle included: what is left keeps
      what the shorter of the versions around it keeps. */
  lemma CrashedLogHolds(h: Hist, id: PeerId, nd: Node, k: nat, durable: Log)
    requires NodeOk(h, id, nd) && k <= |nd.queue| && nd.MayFind(k, durable)
    ensures HoldsPromises(h, id, durable, nd.term) && RecallOk(h, id, durable, [], nd.term)
  {
    var j := if nd.Version(k) <= durable then k else k + 1;
    var l := if durable <= nd.Version(k) then k else k + 1;
    VersionHolds(h, nd, j);
    VersionHolds(h, nd, l);
    LogOkPrefix(h, nd.Version(l), |durable|);
    assert durable == nd.Version(l)[..|durable|];
    HoldsPromisesExtend(h, id, nd.Version(j), durable, nd.term);
    InheritsExtend(h, nd.Version(j), durable, nd.term + 1);
    RecallRestart(h, id, nd.durable, nd.queue, nd.term, j, durable);
  }

  // ---- remembering

  lemma AddHolding(h: Hist, x: Holding) returns (g: Hist)
    requires HistOk(h)
    ensures g == h.(held := h.held + {x})
    ensures HistOk(g) && Grows(h, g)
    ensures forall m | m != x.peer :: SameFor(h, g, m)
  {
    g := h.(held := h.held + {x});
    forall t | t in h.el
      ensures ElectionGrows(h, g, t)
    {
    }
    assert Grows(h, g);
    forall k | k in g.acks
      ensures AckOk(g, k)
    {
      assert AckOk(h, k);
    }
    HistOkGrows(h, g);
  }

  /** The node after its log on disk was noted in the history: every version of its queue keeps that log. */
  lemma RememberedOk(h: Hist, g: Hist, nd: Node)
    requires HistOk(h) && Grows(h, g) && NodeOk(h, nd.id, nd) && g == h.(held := h.held + {Holding(nd.id, nd.durable)})
    ensures NodeOk(g, nd.id, nd)
  {
    var d, q, t := nd.durable, nd.queue, nd.term;
    VersionHolds(h, nd, 0);
    forall x | x in g.held && x.peer == nd.id
      ensures HoldingOk(h, x, d, q, t)
    {
      assert x.log != d ==> x in h.held;
      assert VersionAt(d, q, 0) == d;
    }
    RecallGrows(h, g, nd.id, d, q, t, t);
    NodeOkRecalling(h, g, nd.id, nd);
  }

  lemma NothingNew(h: Hist)
    ensures Grows(h, h) && forall id :: SameFor(h, h, id)
  {
    GrowsReflexive(h);
  }

  lemma StepDownStepOk(s: State, step: Step)
    requires Inv(s) && Enabled(s, step) && step.StepDownStep?
    ensures Preserves(s, step)
  {
    hide Inv, NodeOk, HistOk, Grows, SameFor, StepDown;
    NothingNew(s.h);
    NodeFacts(s, step.n);
    StepDownOk(s.h, step.n, s.nodes[step.n], step.term);
  }

  lemma ApplyStepOk(s: State, step: Step)
    requires Inv(s) && Enabled(s, step) && step.ApplyStep?
    ensures Preserves(s, step)
  {
    hide Inv, NodeOk, HistOk, Grows, SameFor;
    NothingNew(s.h);
    NodeFacts(s, step.n);
    AppliedOk(s.h, s.nodes[step.n], step.index);
  }

  lemma AppliedOk(h: Hist, nd: Node, index: nat)
    requires NodeOk(h, nd.id, nd) && index <= nd.commit
    ensures NodeOk(h, nd.id, nd.(applied := index))
  {
    var r := nd.(applied := index);
    forall k | 0 <= k <= |r.queue|
      ensures VersionOk(h, r, k)
    {
      assert VersionOk(h, nd, k);
      assert r.Version(k) == nd.Version(k);
    }
    AppliedIrrelevant(h, nd, r);
  }

  /** The applied index plays no part in what the rest of the invariant says about the node. */
  lemma AppliedIrrelevant(h: Hist, nd: Node, r: Node)
    requires r == nd.(applied := r.applied)
    requires PromisesOk(h, nd) && QueueOk(h, nd) && DoneTermsOk(nd)
    requires nd.role == Candidate ==> CandidateOk(h, nd)
    requires nd.role == Leader ==> LeaderOk(h, nd)
    ensures PromisesOk(h, r) && QueueOk(h, r) && DoneTermsOk(r)
    ensures r.role == Candidate ==> CandidateOk(h, r)
    ensures r.role == Leader ==> LeaderOk(h, r)
  {
    QueueOkSame(h, nd, r);
    if nd.role == Leader {
      assert forall k | 0 <= k <= |nd.queue| :: r.Version(k) == nd.Version(k);
      forall j | 0 <= j < |r.box.ballots|
        ensures BallotOk(h, r, j)
      {
        assert BallotOk(h, nd, j);
      }
    }
  }

  lemma CrashStepOk(s: State, step: Step)
    requires Inv(s) && Enabled(s, step) && step.CrashStep?
    ensures Preserves(s, step)
  {
    hide Inv, NodeOk, HistOk, Grows, SameFor, Restart;
    NothingNew(s.h);
    var nd := s.nodes[step.n];
    NodeFacts(s, step.n);
    CrashedLogHolds(s.h, step.n, nd, step.k, step.durable);
    RestartOk(s.h, step.n, nd, step.durable);
  }

  lemma RememberStepOk(s: State, step: Step)
    requires Inv(s) && Enabled(s, step) && step.RememberStep?
    ensures Preserves(s, step)
  {
    hide Inv, NodeOk, HistOk, Grows, SameFor;
    NodeFacts(s, step.n);
    var g := AddHolding(s.h, Holding(step.n, s.nodes[step.n].durable));
    RememberedOk(s.h, g, s.nodes[step.n]);
  }
}
