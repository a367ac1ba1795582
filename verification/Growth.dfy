/** The history only grows, and what the invariant says about a node or a message survives its growth. */
module Growth {
  import opened Types
  import opened Quorum
  import opened BallotSpec
  import opened NodeSpec
  import opened Protocol
  import opened Invariant

  ghost predicate ElectionGrows(h: Hist, g: Hist, t: nat)
    requires t in h.el
  {
    && t in g.el
    && g.el[t].leader == h.el[t].leader && g.el[t].base == h.el[t].base && g.el[t].voters == h.el[t].voters
    && h.el[t].log <= g.el[t].log
  }

  ghost predicate Grows(h: Hist, g: Hist) {
    && g.initial == h.initial
    && (forall t {:trigger ElectionGrows(h, g, t)} {:trigger h.el[t]} | t in h.el :: ElectionGrows(h, g, t))
    && (forall k | k in h.votes :: k in g.votes && g.votes[k] == h.votes[k])
    && h.cands <= g.cands && h.commits <= g.commits && h.held <= g.held
    && (forall k | k in h.acks :: k in g.acks && h.acks[k] <= g.acks[k])
  }

  /** Nothing about peer `id` was added between `h` and `g`. */
  ghost predicate SameFor(h: Hist, g: Hist, id: PeerId) {
    SameDeeds(h, g, id) && forall x | x in g.held && x.peer == id :: x in h.held
  }

  /** Nothing but what the peer remembers was added. */
  ghost predicate SameDeeds(h: Hist, g: Hist, id: PeerId) {
    && (forall k | k in g.acks && k.peer == id :: k in h.acks && g.acks[k] == h.acks[k])
    && (forall k | k in g.votes && k.peer == id :: k in h.votes)
    && (forall c | c in g.cands && c.cand == id :: c in h.cands)
    && (forall t | t in g.el && g.el[t].leader == id :: t in h.el && g.el[t] == h.el[t])
    && (forall c | c in g.commits && c.term in h.el && h.el[c.term].leader == id :: c in h.commits)
  }

  lemma GrowsTransitive(h: Hist, g: Hist, f: Hist)
    requires Grows(h, g) && Grows(g, f)
    ensures Grows(h, f)
  {
    forall t | t in h.el
      ensures ElectionGrows(h, f, t)
    {
      assert ElectionGrows(h, g, t) && ElectionGrows(g, f, t);
    }
  }

  lemma SameForTransitive(h: Hist, g: Hist, f: Hist, id: PeerId)
    requires Grows(h, g) && SameFor(h, g, id) && SameFor(g, f, id)
    ensures SameFor(h, f, id)
  {
    forall c | c in f.commits && c.term in h.el && h.el[c.term].leader == id
      ensures c in h.commits
    {
      assert ElectionGrows(h, g, c.term);
    }
  }

  lemma EntryOkGrows(h: Hist, g: Hist, log: Log, i: nat)
    requires Grows(h, g) && i < |log| && EntryOk(h, log, i)
    ensures EntryOk(g, log, i)
  {
    var t := log[i].term;
    assert ElectionGrows(h, g, t);
    assert g.el[t].log[..i + 1] == h.el[t].log[..i + 1];
  }

  lemma LogOkGrows(h: Hist, g: Hist, log: Log)
    requires Grows(h, g) && LogOk(h, log)
    ensures LogOk(g, log)
  {
    forall i | 0 <= i < |log|
      ensures EntryOk(g, log, i)
    {
      assert EntryOk(h, log, i);
      EntryOkGrows(h, g, log, i);
    }
  }

  lemma LostGrows(h: Hist, g: Hist, p: Log, term: nat, later: nat)
    requires Grows(h, g) && p != [] && Lost(h, p, term) && term <= later
    ensures Lost(g, p, later)
  {
    var u :| u in h.el && p[|p| - 1].term < u < term && !(p <= h.el[u].base);
    assert ElectionGrows(h, g, u);
  }

  /** What a node kept it still keeps: the history grows, the bound on terms grows, the log extends. */
  lemma KeepsGrows(h: Hist, g: Hist, a: Log, b: Log, longer: Log, term: nat, later: nat)
    requires Grows(h, g) && Keeps(h, a, b, term) && term <= later && b <= longer
    ensures Keeps(g, a, longer, later)
  {
    forall k | 0 < k <= |a|
      ensures KeepsAt(g, a, longer, later, k)
    {
      assert KeepsAt(h, a, b, term, k);
      if !(a[..k] <= b) {
        LostGrows(h, g, a[..k], term, later);
      }
    }
  }

  lemma KeepsPrefix(h: Hist, a: Log, b: Log, term: nat)
    requires a <= b
    ensures Keeps(h, a, b, term)
  {
    forall k | 0 < k <= |a|
      ensures KeepsAt(h, a, b, term, k)
    {
      assert a[..k] == b[..k];
    }
  }

  lemma CoveredByGrows(h: Hist, g: Hist, log: Log, longer: Log, upto: nat, term: nat, later: nat, c: Commit)
    requires Grows(h, g) && CoveredBy(h, log, upto, term, c) && term <= later
    requires upto <= |longer| && log[..upto] == longer[..upto]
    ensures CoveredBy(g, longer, upto, later, c)
  {
    assert ElectionGrows(h, g, c.term);
    assert g.el[c.term].log[..upto] == h.el[c.term].log[..upto];
  }

  lemma CoveredGrows(h: Hist, g: Hist, log: Log, longer: Log, upto: nat, term: nat, later: nat)
    requires Grows(h, g) && Covered(h, log, upto, term) && term <= later
    requires upto <= |longer| && log[..upto] == longer[..upto]
    ensures Covered(g, longer, upto, later)
  {
    if upto > 0 {
      var c :| c in h.commits && CoveredBy(h, log, upto, term, c);
      CoveredByGrows(h, g, log, longer, upto, term, later, c);
    }
  }

  lemma RespOkGrows(h: Hist, g: Hist, p: PeerId, term: nat, upto: nat)
    requires Grows(h, g) && RespOk(h, p, term, upto)
    ensures RespOk(g, p, term, upto)
  {
    assert ElectionGrows(h, g, term);
    if c :| c in h.commits && c.term == term && upto <= c.upto {
      assert c in g.commits;
    }
  }

  lemma MessageOkGrows(h: Hist, g: Hist, m: Message)
    requires Grows(h, g) && MessageOk(h, m)
    ensures MessageOk(g, m)
  {
    match m
    case VoteReq(term, cand, last) =>
      var c :| c in h.cands && c.term == term && c.cand == cand && LastId(c.log) == last;
      assert c in g.cands;
    case VoteResp(term, voter, cand) =>
    case AppendReq(term, leader, to, prev, prevTerm, entries, commit) =>
      assert ElectionGrows(h, g, term);
      assert g.el[term].log[prev..prev + |entries|] == h.el[term].log[prev..prev + |entries|];
      CoveredGrows(h, g, h.el[term].log, g.el[term].log, commit, term, term);
    case AppendResp(term, from, upto) =>
      RespOkGrows(h, g, from, term, upto);
  }

  // ---- nodes

  lemma VersionOkGrows(h: Hist, g: Hist, nd: Node, k: nat)
    requires Grows(h, g) && SameDeeds(h, g, nd.id)
    requires forall a {:trigger AckOk(h, a)} | a in h.acks :: AckOk(h, a)
    requires k <= |nd.queue| && VersionOk(h, nd, k)
    ensures VersionOk(g, nd, k)
  {
    var v := nd.Version(k);
    LogOkGrows(h, g, v);
    forall a | a in g.acks && a.peer == nd.id && AckOk(g, a)
      ensures Keeps(g, AckedLog(g, a), v, nd.term + 1)
    {
      assert AckOk(h, a);
      assert ElectionGrows(h, g, a.term);
      assert AckedLog(g, a) == AckedLog(h, a);
      KeepsGrows(h, g, AckedLog(h, a), v, v, nd.term + 1, nd.term + 1);
    }
    forall c | c in g.cands && c.cand == nd.id && c.term == nd.term + 1
      ensures Keeps(g, c.log, v, nd.term + 1)
    {
      assert c in h.cands;
      KeepsGrows(h, g, c.log, v, v, nd.term + 1, nd.term + 1);
    }
  }

  /** What a node recalls survives the growth of the history and of its term. */
  lemma RecallSame(h: Hist, g: Hist, id: PeerId, durable: Log, queue: seq<DiskItem>, term: nat, later: nat)
    requires Grows(h, g) && RecallOk(h, id, durable, queue, term) && term <= later && g.held == h.held
    ensures RecallOk(g, id, durable, queue, later)
  {
    RecallGrows(h, g, id, durable, queue, term, later);
  }

  lemma RecallGrows(h: Hist, g: Hist, id: PeerId, durable: Log, queue: seq<DiskItem>, term: nat, later: nat)
    requires Grows(h, g) && RecallOk(h, id, durable, queue, term) && term <= later
    requires forall x | x in g.held && x.peer == id :: HoldingOk(h, x, durable, queue, term)
    ensures RecallOk(g, id, durable, queue, later)
  {
    forall j, k | 0 <= j <= k <= |queue|
      ensures Keeps(g, VersionAt(durable, queue, j), VersionAt(durable, queue, k), later + 1)
    {
      var a, b := VersionAt(durable, queue, j), VersionAt(durable, queue, k);
      KeepsGrows(h, g, a, b, b, term + 1, later + 1);
    }
    forall x | x in g.held && x.peer == id
      ensures HoldingOk(g, x, durable, queue, later)
    {
      assert HoldingOk(h, x, durable, queue, term);
      LogOkGrows(h, g, x.log);
      forall k | 0 <= k <= |queue|
        ensures Keeps(g, x.log, VersionAt(durable, queue, k), later + 1)
      {
        var b := VersionAt(durable, queue, k);
        KeepsGrows(h, g, x.log, b, b, term + 1, later + 1);
      }
    }
  }

  lemma PromisesOkGrows(h: Hist, g: Hist, nd: Node)
    requires Grows(h, g) && SameDeeds(h, g, nd.id) && PromisesOk(h, nd)
    ensures PromisesOk(g, nd)
  {
  }

  lemma CandidateOkGrows(h: Hist, g: Hist, nd: Node)
    requires Grows(h, g) && SameDeeds(h, g, nd.id) && CandidateOk(h, nd)
    ensures CandidateOk(g, nd)
  {
    forall c | c in g.cands && c.cand == nd.id && c.term == nd.term
      ensures Keeps(g, c.log, nd.durable, nd.term)
    {
      assert c in h.cands;
      KeepsGrows(h, g, c.log, nd.durable, nd.durable, nd.term, nd.term);
    }
  }

  lemma BoxOkGrows(h: Hist, g: Hist, nd: Node)
    requires Grows(h, g) && nd.term in h.el && nd.term in g.el && g.el[nd.term] == h.el[nd.term] && BoxOk(h, nd)
    ensures BoxOk(g, nd)
  {
    forall j | 0 <= j < |nd.box.ballots|
      ensures BallotOk(g, nd, j)
    {
      assert BallotOk(h, nd, j);
    }
  }

  lemma LeaderOkGrows(h: Hist, g: Hist, nd: Node)
    requires Grows(h, g) && SameDeeds(h, g, nd.id) && LeaderOk(h, nd)
    ensures LeaderOk(g, nd)
  {
    assert ElectionGrows(h, g, nd.term);
    BoxOkGrows(h, g, nd);
  }

  lemma FollowerDoneOkGrows(h: Hist, g: Hist, nd: Node, done: Done)
    requires Grows(h, g) && done.FollowerDone? && FollowerDoneOk(h, nd, done)
    ensures FollowerDoneOk(g, nd, done)
  {
    if done.term == nd.term {
      assert ElectionGrows(h, g, nd.term);
      CoveredGrows(h, g, h.el[nd.term].log, g.el[nd.term].log, done.commit, nd.term, nd.term);
    }
  }

  lemma HeldGrows(h: Hist, g: Hist, term: nat, upto: nat, log: Log)
    requires Grows(h, g) && Held(h, term, upto, log)
    ensures Held(g, term, upto, log)
  {
    assert ElectionGrows(h, g, term);
    assert g.el[term].log[..upto] == h.el[term].log[..upto];
  }

  lemma QueueOkGrows(h: Hist, g: Hist, nd: Node)
    requires Grows(h, g) && QueueOk(h, nd)
    ensures QueueOk(g, nd)
  {
    forall k | 0 <= k < |nd.queue|
      ensures ItemOk(g, nd, k)
    {
      assert ItemOk(h, nd, k);
      if nd.queue[k].done.FollowerDone? {
        FollowerDoneOkGrows(h, g, nd, nd.queue[k].done);
      }
    }
    forall k, l | 0 <= k <= l < |nd.queue|
      ensures ItemHeld(g, nd, k, l)
    {
      assert ItemHeld(h, nd, k, l);
      if nd.queue[k].done.FollowerDone? && nd.queue[k].done.term == nd.term {
        HeldGrows(h, g, nd.term, nd.queue[k].done.upto, nd.queue[l].log);
      }
    }
    forall d | d in nd.ready
      ensures ReadyOk(g, nd, d)
    {
      assert ReadyOk(h, nd, d);
      FollowerDoneOkGrows(h, g, nd, d);
      if d.term == nd.term {
        HeldGrows(h, g, nd.term, d.upto, nd.Mem());
        RespOkGrows(h, g, nd.id, nd.term, d.upto);
      }
    }
  }

  /** The queue depends on nothing but the queue, the ready closures, the term and the role. */
  lemma QueueOkSame(h: Hist, nd: Node, r: Node)
    requires QueueOk(h, nd) && DoneTermsOk(nd)
    requires r.id == nd.id && r.term == nd.term && r.durable == nd.durable && r.queue == nd.queue && r.ready <= nd.ready
    requires r.role == Follower || r.role == nd.role
    ensures QueueOk(h, r) && DoneTermsOk(r)
  {
    forall k | 0 <= k < |r.queue|
      ensures ItemOk(h, r, k)
    {
      assert ItemOk(h, nd, k);
    }
    forall k, l | 0 <= k <= l < |r.queue|
      ensures ItemHeld(h, r, k, l)
    {
      assert ItemHeld(h, nd, k, l);
    }
    forall d | d in r.ready
      ensures ReadyOk(h, r, d)
    {
      assert ReadyOk(h, nd, d);
    }
  }

  /** In a later term no closure of the queue can answer any more. */
  lemma QueueOkLater(h: Hist, nd: Node, r: Node)
    requires DoneTermsOk(nd) && nd.term < r.term && r.queue == nd.queue && r.ready == nd.ready
    ensures QueueOk(h, r) && DoneTermsOk(r)
  {
    forall k | 0 <= k < |r.queue|
      ensures ItemOk(h, r, k)
    {
    }
    forall k, l | 0 <= k <= l < |r.queue|
      ensures ItemHeld(h, r, k, l)
    {
    }
    forall d | d in r.ready
      ensures ReadyOk(h, r, d)
    {
    }
  }

  lemma NodeOkGrows(h: Hist, g: Hist, id: PeerId, nd: Node)
    requires Grows(h, g) && SameFor(h, g, id) && NodeOk(h, id, nd)
    requires forall a {:trigger AckOk(h, a)} | a in h.acks :: AckOk(h, a)
    ensures NodeOk(g, id, nd)
  {
    hide Grows, SameDeeds, AckOk;
    RecallGrows(h, g, nd.id, nd.durable, nd.queue, nd.term, nd.term);
    NodeOkRecalling(h, g, id, nd);
  }

  /** The same, when what the node recalls is known. */
  lemma NodeOkRecalling(h: Hist, g: Hist, id: PeerId, nd: Node)
    requires Grows(h, g) && SameDeeds(h, g, id) && NodeOk(h, id, nd)
    requires RecallOk(g, nd.id, nd.durable, nd.queue, nd.term)
    requires forall a {:trigger AckOk(h, a)} | a in h.acks :: AckOk(h, a)
    ensures NodeOk(g, id, nd)
  {
    hide RecallOk;
    forall k | 0 <= k <= |nd.queue|
      ensures VersionOk(g, nd, k)
    {
      assert VersionOk(h, nd, k);
      VersionOkGrows(h, g, nd, k);
    }
    PromisesOkGrows(h, g, nd);
    QueueOkGrows(h, g, nd);
    CoveredGrows(h, g, nd.Mem(), nd.Mem(), nd.commit, nd.term, nd.term);
    if nd.role == Candidate {
      CandidateOkGrows(h, g, nd);
    }
    if nd.role == Leader {
      LeaderOkGrows(h, g, nd);
    }
    if nd.role == Follower && nd.leader.Some? {
      assert ElectionGrows(h, g, nd.term);
    }
  }

  // ---- the history itself

  lemma ElectionOkGrows(h: Hist, g: Hist, t: nat)
    requires Grows(h, g) && t in h.el && ElectionOk(h, t) && t in g.el && g.el[t] == h.el[t]
    ensures ElectionOk(g, t)
  {
    var e := h.el[t];
    LogOkGrows(h, g, e.log);
    forall p | |e.base| <= p < |e.log|
      ensures ConfEntryOk(g, t, p)
    {
      ConfEntryOkGrows(h, g, t, p);
    }
    forall v | v in e.voters
      ensures VoteFor(g, v, t, e.leader) && Keeps(g, g.votes[Key(v, t)].candLog, e.base, t)
      ensures !g.votes[Key(v, t)].late
    {
      assert VoteFor(h, v, t, e.leader);
      KeepsGrows(h, g, h.votes[Key(v, t)].candLog, e.base, e.base, t, t);
    }
  }

  lemma ConfEntryOkGrows(h: Hist, g: Hist, t: nat, p: nat)
    requires Grows(h, g) && t in h.el && ElectionGrows(h, g, t) && |h.el[t].base| <= p < |h.el[t].log|
    requires ConfEntryOk(h, t, p)
    ensures ConfEntryOk(g, t, p)
  {
    assert g.el[t].log[..p] == h.el[t].log[..p];
    if h.el[t].log[p].payload.Conf? && p > |h.el[t].base| {
      var c :| c in h.commits && ConfCommitted(h, t, p, c);
      assert ConfCommitted(g, t, p, c);
    }
  }

  lemma VoteOkGrows(h: Hist, g: Hist, key: Key)
    requires Grows(h, g) && key in h.votes && VoteOk(h, key)
    requires forall a {:trigger AckOk(h, a)} | a in h.acks :: AckOk(h, a)
    requires forall a | a in g.acks && a.peer == key.peer && a.term < key.term :: a in h.acks && g.acks[a] == h.acks[a]
    ensures VoteOk(g, key)
  {
    var v := h.votes[key];
    assert v.late ==> ElectionGrows(h, g, key.term);
    LogOkGrows(h, g, v.voterLog);
    LogOkGrows(h, g, v.candLog);
    forall a | a in g.acks && a.peer == key.peer && a.term < key.term && AckOk(g, a)
      ensures Keeps(g, AckedLog(g, a), v.voterLog, if v.late then key.term + 1 else key.term)
    {
      var bound := if v.late then key.term + 1 else key.term;
      assert AckOk(h, a);
      assert ElectionGrows(h, g, a.term);
      assert AckedLog(g, a) == AckedLog(h, a);
      KeepsGrows(h, g, AckedLog(h, a), v.voterLog, v.voterLog, bound, bound);
    }
  }

  lemma CommitOkGrows(h: Hist, g: Hist, c: Commit)
    requires Grows(h, g) && CommitOk(h, c)
    ensures CommitOk(g, c)
  {
    assert ElectionGrows(h, g, c.term);
    assert g.el[c.term].log[..c.upto] == h.el[c.term].log[..c.upto];
    forall p | p in c.quorum
      ensures Acked(g, p, c.term, c.upto)
    {
      assert Acked(h, p, c.term, c.upto);
    }
  }

  /** The history stays consistent when everything that is new in it is. */
  lemma HistOkGrows(h: Hist, g: Hist)
    requires HistOk(h) && Grows(h, g)
    requires forall t {:trigger ElectionOk(g, t)} | t in g.el :: (t in h.el && g.el[t] == h.el[t]) || ElectionOk(g, t)
    requires forall k {:trigger VoteOk(g, k)} | k in g.votes :: k in h.votes || VoteOk(g, k)
    requires forall k {:trigger AckOk(g, k)} | k in g.acks :: AckOk(g, k)
    requires forall k, v | k in g.acks && v in h.votes && k.peer == v.peer && k.term < v.term ::
               k in h.acks && g.acks[k] == h.acks[k]
    requires forall c {:trigger CommitOk(g, c)} | c in g.commits :: c in h.commits || CommitOk(g, c)
    requires forall c {:trigger CandidacyOk(g, c)} | c in g.cands :: c in h.cands || CandidacyOk(g, c)
    ensures HistOk(g)
  {
    forall t | t in g.el
      ensures ElectionOk(g, t)
    {
      if t in h.el && g.el[t] == h.el[t] {
        assert ElectionOk(h, t);
        ElectionOkGrows(h, g, t);
      }
    }
    forall k | k in g.votes
      ensures VoteOk(g, k)
    {
      if k in h.votes {
        assert VoteOk(h, k);
        VoteOkGrows(h, g, k);
      }
    }
    forall c | c in g.commits
      ensures CommitOk(g, c)
    {
      if c in h.commits {
        assert CommitOk(h, c);
        CommitOkGrows(h, g, c);
      }
    }
    forall c | c in g.cands
      ensures CandidacyOk(g, c)
    {
      if c in h.cands {
        assert CandidacyOk(h, c);
        LogOkGrows(h, g, c.log);
      }
    }
  }
}
