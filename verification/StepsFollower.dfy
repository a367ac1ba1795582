/** A follower that handles AppendEntries keeps the invariant. */
module StepsFollower {
  import opened Types
  import opened Quorum
  import opened BallotSpec
  import opened NodeSpec
  import opened Protocol
  import opened Invariant
  import opened Completeness
  import opened Growth
  import opened StepsNode

  // ---- accepting the leader

  /** Whoever sends AppendEntries in a term is the leader the follower already knows, or the first it meets:
      the branch for a second leader of a term is never taken. */
  lemma OneLeaderPerTerm(h: Hist, id: PeerId, nd: Node, req: Message)
    requires HistOk(h) && NodeOk(h, id, nd) && MessageOk(h, req) && req.AppendReq? && req.term >= nd.term
    ensures var nd1 := CheckStepDown(nd, req.term, req.leader);
            && NodeOk(h, id, nd1)
            && nd1.leader == Some(req.leader) && nd1.term == req.term && nd1.role == Follower
            && nd1.commit == nd.commit && nd1.applied == nd.applied && nd1.Mem() == nd.Mem()
  {
    hide Keeps, LogOk, QueueOk, VersionsOk, RecallOk, PromisesOk, ConfOf, Covered;
    if req.term > nd.term || nd.role != Follower || nd.leader.None? {
      StepDownOk(h, id, nd, req.term);
      SetLeaderOk(h, id, StepDown(nd, req.term), req.leader);
    }
  }

  lemma SetLeaderOk(h: Hist, id: PeerId, nd: Node, leader: PeerId)
    requires NodeOk(h, id, nd) && nd.role == Follower && nd.term in h.el && h.el[nd.term].leader == leader
    ensures NodeOk(h, id, nd.(leader := Some(leader)))
  {
    var r := nd.(leader := Some(leader));
    forall k | 0 <= k <= |r.queue|
      ensures VersionOk(h, r, k)
    {
      assert VersionOk(h, nd, k);
      assert r.Version(k) == nd.Version(k);
    }
    assert PromisesOk(h, r);
    QueueOkSame(h, nd, r);
  }

  // ---- finding the conflict

  lemma {:induction false} ConflictFacts(log: Log, prev: nat, entries: Log)
    requires prev <= |log|
    ensures var j := FirstConflict(log, prev, entries);
            && (forall i | 0 <= i < j :: log[prev + i].term == entries[i].term)
            && (j < |entries| ==> prev + j == |log| || log[prev + j].term != entries[j].term)
    decreases |entries|
  {
    if entries != [] && prev < |log| && log[prev].term == entries[0].term {
      ConflictFacts(log, prev + 1, entries[1..]);
      var j := FirstConflict(log, prev + 1, entries[1..]);
      forall i | 0 <= i < 1 + j
        ensures log[prev + i].term == entries[i].term
      {
        if i > 0 {
          assert entries[i] == entries[1..][i - 1];
        }
      }
    }
  }

  /** The previous entry matched, so the follower's log and the leader's agree up to it. */
  lemma PrevMatches(h: Hist, mem: Log, log: Log, prev: nat)
    requires LogOk(h, mem) && LogOk(h, log) && prev <= |mem| && prev <= |log|
    requires TermAt(mem, prev) == TermAt(log, prev)
    ensures mem[..prev] == log[..prev]
  {
    if prev > 0 {
      Matching(h, mem, log, prev - 1);
    }
  }

  /** What a request of the leader with log `log` does to the follower's log `mem`: `m` is where they part. */
  ghost predicate Parts(mem: Log, log: Log, m: nat) {
    && m <= |mem| && m <= |log| && mem[..m] == log[..m]
    && (m < |mem| && m < |log| ==> mem[m] != log[m])
  }

  lemma ResolveFacts(h: Hist, mem: Log, log: Log, prev: nat, n: nat)
    requires LogOk(h, mem) && LogOk(h, log) && prev <= |mem| && prev + n <= |log| && mem[..prev] == log[..prev]
    ensures var entries := log[prev..prev + n];
            var j := FirstConflict(mem, prev, entries);
            && mem[..prev + j] == log[..prev + j]
            && (j == n ==> Resolve(mem, prev, entries) == mem)
            && (j < n ==> Resolve(mem, prev, entries) == log[..prev + n] && Parts(mem, log, prev + j))
  {
    var entries := log[prev..prev + n];
    var j := FirstConflict(mem, prev, entries);
    ConflictFacts(mem, prev, entries);
    if j > 0 {
      assert mem[prev + (j - 1)].term == entries[j - 1].term;
      Matching(h, mem, log, prev + j - 1);
    }
    if j < n {
      assert mem[..prev + j] + entries[j..] == log[..prev + n];
    }
  }

  /** Cutting a log where it parts from the leader's, and going on with the leader's, loses only what the
      leader lacked. */
  lemma KeepsCut(h: Hist, a: Log, mem: Log, cut: Log, t: nat, m: nat)
    requires HistOk(h) && t in h.el && Keeps(h, a, mem, t + 1) && LogOk(h, mem) && TermsBelow(mem, t + 1)
    requires Parts(mem, h.el[t].log, m) && mem[..m] <= cut
    ensures Keeps(h, a, cut, t + 1)
  {
    assert ElectionOk(h, t);
    var bound := t + 1;
    forall k | 0 < k <= |a|
      ensures KeepsAt(h, a, cut, bound, k)
    {
      assert KeepsAt(h, a, mem, bound, k);
      if a[..k] <= mem && !(a[..k] <= cut) {
        assert mem[..k] == a[..k];
        assert EntryOk(h, mem, k - 1);
        BeyondParting(mem, h.el[t].log, m, k);
        assert Lost(h, a[..k], bound);
      }
    }
  }

  lemma BeyondParting(mem: Log, log: Log, m: nat, k: nat)
    requires Parts(mem, log, m) && m < k <= |mem|
    ensures !(mem[..k] <= log)
  {
    assert mem[..k][m] == mem[m];
  }

  lemma HoldsPromisesCut(h: Hist, id: PeerId, mem: Log, cut: Log, t: nat, m: nat)
    requires HistOk(h) && t in h.el && HoldsPromises(h, id, mem, t)
    requires Parts(mem, h.el[t].log, m) && mem[..m] <= cut
    requires LogOk(h, cut) && TermsBelow(cut, t + 1)
    ensures HoldsPromises(h, id, cut, t)
  {
    forall a | a in h.acks && a.peer == id && AckOk(h, a)
      ensures Keeps(h, AckedLog(h, a), cut, t + 1)
    {
      KeepsCut(h, AckedLog(h, a), mem, cut, t, m);
    }
    forall c | c in h.cands && c.cand == id && c.term == t + 1
      ensures Keeps(h, c.log, cut, t + 1)
    {
      KeepsCut(h, c.log, mem, cut, t, m);
    }
  }

  // ---- the follower after a request

  /** What the node already knows to be committed lies before the point where its log parts from the
      leader's: nothing at or below the applied index is ever cut off. */
  lemma CommittedIsNotCut(h: Hist, nd: Node, m: nat)
    requires HistOk(h) && NodeOk(h, nd.id, nd) && nd.term in h.el && Parts(nd.Mem(), h.el[nd.term].log, m)
    ensures nd.applied <= nd.commit <= m
  {
    CoveredInLeader(h, nd.Mem(), nd.commit, nd.term, nd.term);
    if m < nd.commit {
      BeyondParting(nd.Mem(), h.el[nd.term].log, m, nd.commit);
    }
  }

  lemma CoveredSmaller(h: Hist, log: Log, upto: nat, less: nat, term: nat)
    requires Covered(h, log, upto, term) && less <= upto
    ensures Covered(h, log, less, term)
  {
    if less > 0 {
      var c :| c in h.commits && CoveredBy(h, log, upto, term, c);
      assert log[..less] == log[..upto][..less];
      assert CoveredBy(h, log, less, term, c);
    }
  }

  /** The index a follower learns from a request is covered, as far as its log is known to match. */
  lemma CommitFromRequest(h: Hist, mem: Log, req: Message, upto: nat)
    requires req.AppendReq? && MessageOk(h, req) && upto <= |mem|
    requires upto <= |h.el[req.term].log| && mem[..upto] == h.el[req.term].log[..upto]
    ensures Covered(h, mem, Min(req.commit, upto), req.term)
    ensures Covered(h, h.el[req.term].log, Min(req.commit, upto), req.term)
  {
    var log := h.el[req.term].log;
    var c := Min(req.commit, upto);
    CoveredSmaller(h, log, req.commit, c, req.term);
    GrowsReflexive(h);
    assert mem[..c] == mem[..upto][..c] == log[..c];
    CoveredGrows(h, h, log, mem, c, req.term, req.term);
  }

  lemma SetLastCommittedOk(h: Hist, nd: Node, index: nat)
    requires NodeOk(h, nd.id, nd) && nd.role == Follower && Covered(h, nd.Mem(), index, nd.term)
    ensures NodeOk(h, nd.id, SetLastCommitted(nd, index))
  {
    var r := SetLastCommitted(nd, index);
    forall k | 0 <= k <= |r.queue|
      ensures VersionOk(h, r, k)
    {
      assert VersionOk(h, nd, k);
      assert r.Version(k) == nd.Version(k);
    }
    assert PromisesOk(h, r);
    QueueOkSame(h, nd, r);
  }

  /** A request whose entries all lie at or below the applied index is acknowledged without the disk. */
  lemma AckAppliedOk(h: Hist, nd: Node, req: Message)
    requires HistOk(h) && NodeOk(h, nd.id, nd) && nd.role == Follower && nd.term == req.term
    requires req.AppendReq? && MessageOk(h, req) && req.entries != [] && req.prev + |req.entries| <= nd.applied
    requires req.prev <= |nd.Mem()|
    ensures NodeOk(h, nd.id, FollowerAppend(nd, req))
  {
    hide Keeps, LogOk, RecallOk, QueueOk, VersionsOk, PromisesOk;
    var last := req.prev + |req.entries|;
    var d := FollowerDone(nd.term, last, Min(req.commit, last));
    var r := nd.(ready := nd.ready + {d});
    var log := h.el[nd.term].log;
    CoveredInLeader(h, nd.Mem(), nd.commit, nd.term, nd.term);
    assert nd.Mem()[..last] == nd.Mem()[..nd.commit][..last] == log[..last];
    CommitFromRequest(h, nd.Mem(), req, last);
    AppliedIsAcked(h, nd, last);
    hide NodeOk, HistOk;
    AddReadyOk(h, nd, d);
  }

  lemma AddReadyOk(h: Hist, nd: Node, d: Done)
    requires NodeOk(h, nd.id, nd) && nd.role == Follower && ReadyOk(h, nd, d) && d.term == nd.term
    ensures NodeOk(h, nd.id, nd.(ready := nd.ready + {d}))
  {
    var r := nd.(ready := nd.ready + {d});
    forall k | 0 <= k <= |r.queue|
      ensures VersionOk(h, r, k)
    {
      assert VersionOk(h, nd, k);
      assert r.Version(k) == nd.Version(k);
    }
    assert PromisesOk(h, r);
    QueueOkSame(h, nd, r.(ready := nd.ready));
    QueueOkAddReady(h, r.(ready := nd.ready), d);
  }

  lemma QueueOkAddReady(h: Hist, nd: Node, d: Done)
    requires QueueOk(h, nd) && DoneTermsOk(nd) && ReadyOk(h, nd, d) && d.term == nd.term
    ensures QueueOk(h, nd.(ready := nd.ready + {d})) && DoneTermsOk(nd.(ready := nd.ready + {d}))
  {
    var r := nd.(ready := nd.ready + {d});
    forall k | 0 <= k < |r.queue|
      ensures ItemOk(h, r, k)
    {
      assert ItemOk(h, nd, k);
    }
    forall k, l | 0 <= k <= l < |r.queue|
      ensures ItemHeld(h, r, k, l)
    {
      assert ItemHeld(h, nd, k, l);
    }
    forall d' | d' in r.ready
      ensures ReadyOk(h, r, d')
    {
      assert ReadyOk(h, nd, d');
    }
  }

  lemma AppliedIsAcked(h: Hist, nd: Node, last: nat)
    requires HistOk(h) && NodeOk(h, nd.id, nd) && nd.term in h.el && 0 < last <= nd.applied
    ensures RespOk(h, nd.id, nd.term, last)
  {
    CoveredInLeader(h, nd.Mem(), nd.commit, nd.term, nd.term);
    var c :| c in h.commits && CoveredBy(h, nd.Mem(), nd.commit, nd.term, c);
    LeaderHoldsCommit(h, c, nd.term);
  }

  /** Adding versions of the log that keep what the node promised, and a closure for the last of them. */
  lemma EnqueueOk(h: Hist, nd: Node, logs: seq<Log>, done: Done, m: nat)
    requires HistOk(h) && NodeOk(h, nd.id, nd) && nd.role == Follower && nd.term in h.el
    requires logs != [] && done.FollowerDone? && done.term == nd.term && FollowerDoneOk(h, nd, done)
    requires m <= |nd.Mem()| && nd.commit <= m
    requires forall i | 0 <= i < |logs| :: HoldsPromises(h, nd.id, logs[i], nd.term) && nd.Mem()[..m] <= logs[i]
    requires RecallOk(h, nd.id, nd.durable, Enqueue(nd, logs, done).queue, nd.term)
    requires h.el[nd.term].log[..done.upto] <= logs[|logs| - 1]
    requires forall k | 0 <= k < |nd.queue| && nd.queue[k].done.FollowerDone? && nd.queue[k].done.term == nd.term ::
               nd.queue[k].done.upto <= m
    requires forall d | d in nd.ready && d.FollowerDone? && d.term == nd.term :: d.upto <= m
    ensures NodeOk(h, nd.id, Enqueue(nd, logs, done))
  {
    hide Keeps, LogOk, HistOk, RecallOk, TermsBelow, Covered, Resolve, ConfOf, Grows;
    var r := Enqueue(nd, logs, done);
    forall k | 0 <= k <= |r.queue|
      ensures VersionOk(h, r, k)
    {
      if k <= |nd.queue| {
        assert VersionOk(h, nd, k);
        assert r.Version(k) == nd.Version(k);
      } else {
        assert r.Version(k) == logs[k - |nd.queue| - 1];
      }
    }
    assert PromisesOk(h, r);
    GrowsReflexive(h);
    assert r.Mem() == logs[|logs| - 1];
    assert r.Mem()[..nd.commit] == r.Mem()[..m][..nd.commit] == nd.Mem()[..nd.commit];
    CoveredGrows(h, h, nd.Mem(), r.Mem(), nd.commit, nd.term, nd.term);
    EnqueueQueue(h, nd, logs, done, m);
  }

  function Enqueue(nd: Node, logs: seq<Log>, done: Done): Node
    requires logs != []
  {
    nd.(queue := nd.queue + seq(|logs|, i requires 0 <= i < |logs| =>
                                          DiskItem(logs[i], if i == |logs| - 1 then done else NoDone)))
  }

  lemma EnqueueQueue(h: Hist, nd: Node, logs: seq<Log>, done: Done, m: nat)
    requires nd.role == Follower && nd.term in h.el && QueueOk(h, nd) && DoneTermsOk(nd)
    requires logs != [] && done.FollowerDone? && done.term == nd.term && FollowerDoneOk(h, nd, done)
    requires m <= |nd.Mem()|
    requires forall i | 0 <= i < |logs| :: nd.Mem()[..m] <= logs[i]
    requires h.el[nd.term].log[..done.upto] <= logs[|logs| - 1]
    requires forall k | 0 <= k < |nd.queue| && nd.queue[k].done.FollowerDone? && nd.queue[k].done.term == nd.term ::
               nd.queue[k].done.upto <= m
    requires forall d | d in nd.ready && d.FollowerDone? && d.term == nd.term :: d.upto <= m
    ensures QueueOk(h, Enqueue(nd, logs, done)) && DoneTermsOk(Enqueue(nd, logs, done))
  {
    var r := Enqueue(nd, logs, done);
    forall k | 0 <= k < |r.queue|
      ensures ItemOk(h, r, k)
    {
      assert k < |nd.queue| ==> ItemOk(h, nd, k);
    }
    forall k, l | 0 <= k <= l < |r.queue|
      ensures ItemHeld(h, r, k, l)
    {
      EnqueueHeld(h, nd, logs, done, m, k, l);
    }
    assert r.Mem() == logs[|logs| - 1];
    forall d | d in r.ready
      ensures ReadyOk(h, r, d)
    {
      assert ReadyOk(h, nd, d);
      if d.term == nd.term {
        PrefixOfCut(h.el[nd.term].log[..d.upto], nd.Mem(), m, r.Mem());
      }
    }
  }

  lemma EnqueueHeld(h: Hist, nd: Node, logs: seq<Log>, done: Done, m: nat, k: nat, l: nat)
    requires nd.term in h.el && QueueOk(h, nd)
    requires logs != [] && done.FollowerDone? && done.term == nd.term && FollowerDoneOk(h, nd, done)
    requires m <= |nd.Mem()|
    requires forall i | 0 <= i < |logs| :: nd.Mem()[..m] <= logs[i]
    requires h.el[nd.term].log[..done.upto] <= logs[|logs| - 1]
    requires forall k | 0 <= k < |nd.queue| && nd.queue[k].done.FollowerDone? && nd.queue[k].done.term == nd.term ::
               nd.queue[k].done.upto <= m
    requires k <= l < |Enqueue(nd, logs, done).queue|
    ensures ItemHeld(h, Enqueue(nd, logs, done), k, l)
  {
    var r := Enqueue(nd, logs, done);
    if k < |nd.queue| && nd.queue[k].done.FollowerDone? && nd.queue[k].done.term == nd.term {
      if l < |nd.queue| {
        assert ItemHeld(h, nd, k, l);
      } else {
        assert ItemHeld(h, nd, k, |nd.queue| - 1);
        assert nd.queue[|nd.queue| - 1].log == nd.Mem();
        assert r.queue[l].log == logs[l - |nd.queue|];
        PrefixOfCut(h.el[nd.term].log[..nd.queue[k].done.upto], nd.Mem(), m, r.queue[l].log);
      }
    }
  }

  lemma PrefixOfCut(p: Log, mem: Log, m: nat, longer: Log)
    requires p <= mem && |p| <= m <= |mem| && mem[..m] <= longer
    ensures p <= longer
  {
    assert p == mem[..m][..|p|];
  }

  /** The whole of a request whose previous entry matches: the disk operations it queues. */
  lemma FollowerAppendOk(h: Hist, nd: Node, req: Message)
    requires HistOk(h) && NodeOk(h, nd.id, nd) && nd.role == Follower && nd.term == req.term
    requires req.AppendReq? && MessageOk(h, req) && req.entries != []
    requires req.prev <= |nd.Mem()| && TermAt(nd.Mem(), req.prev) == req.prevTerm
    ensures NodeOk(h, nd.id, FollowerAppend(nd, req))
  {
    hide NodeOk, HistOk, MessageOk, FollowerAppend, FirstConflict, Resolve, Parts;
    if req.prev + |req.entries| <= nd.applied {
      AckAppliedOk(h, nd, req);
    } else {
      RequestResolves(h, nd, req);
      if FirstConflict(nd.Mem(), req.prev, req.entries) == |req.entries| {
        DuplicateOk(h, nd, req);
      } else {
        ConflictOk(h, nd, req);
      }
    }
  }

  /** Either the follower holds the whole request, or its log parts from the leader's at the first conflict. */
  lemma RequestResolves(h: Hist, nd: Node, req: Message)
    requires HistOk(h) && NodeOk(h, nd.id, nd) && nd.term == req.term && req.AppendReq? && MessageOk(h, req)
    requires req.prev <= |nd.Mem()| && TermAt(nd.Mem(), req.prev) == req.prevTerm
    ensures var mem, log, last := nd.Mem(), h.el[nd.term].log, req.prev + |req.entries|;
            var j := FirstConflict(mem, req.prev, req.entries);
            if j == |req.entries| then last <= |mem| && mem[..last] == log[..last]
            else Parts(mem, log, req.prev + j) && Resolve(mem, req.prev, req.entries) == log[..last]
  {
    hide NodeOk, HistOk, LogOk, Covered;
    RequestMatches(h, nd, req);
    ResolveFacts(h, nd.Mem(), h.el[nd.term].log, req.prev, |req.entries|);
  }

  /** A request whose previous entry is in the follower's log agrees with that log up to it. */
  lemma RequestMatches(h: Hist, nd: Node, req: Message)
    requires HistOk(h) && NodeOk(h, nd.id, nd) && nd.term == req.term && req.AppendReq? && MessageOk(h, req)
    requires req.prev <= |nd.Mem()| && TermAt(nd.Mem(), req.prev) == req.prevTerm
    ensures nd.Mem()[..req.prev] == h.el[nd.term].log[..req.prev]
    ensures LogOk(h, nd.Mem()) && LogOk(h, h.el[nd.term].log)
  {
    MemHolds(h, nd);
    assert ElectionOk(h, nd.term);
    PrevMatches(h, nd.Mem(), h.el[nd.term].log, req.prev);
  }

  lemma FollowerDoneFromRequest(h: Hist, nd: Node, req: Message)
    requires HistOk(h) && NodeOk(h, nd.id, nd) && nd.role == Follower && nd.term == req.term
    requires req.AppendReq? && MessageOk(h, req)
    ensures var last := req.prev + |req.entries|;
            FollowerDoneOk(h, nd, FollowerDone(nd.term, last, Min(req.commit, last)))
  {
    CommitFromRequest(h, h.el[req.term].log, req, req.prev + |req.entries|);
  }

  /** Closures of the current term speak about entries the leader's log and the node's memory share. */
  lemma PendingBelow(h: Hist, nd: Node, m: nat)
    requires NodeOk(h, nd.id, nd) && nd.term in h.el && Parts(nd.Mem(), h.el[nd.term].log, m)
    ensures forall k | 0 <= k < |nd.queue| && nd.queue[k].done.FollowerDone? && nd.queue[k].done.term == nd.term ::
              nd.queue[k].done.upto <= m
    ensures forall d | d in nd.ready && d.FollowerDone? && d.term == nd.term :: d.upto <= m
  {
    var log := h.el[nd.term].log;
    forall k | 0 <= k < |nd.queue| && nd.queue[k].done.FollowerDone? && nd.queue[k].done.term == nd.term
      ensures nd.queue[k].done.upto <= m
    {
      assert ItemHeld(h, nd, k, |nd.queue| - 1);
      SharedBelow(nd.Mem(), log, m, nd.queue[k].done.upto);
    }
    forall d | d in nd.ready && d.FollowerDone? && d.term == nd.term
      ensures d.upto <= m
    {
      assert ReadyOk(h, nd, d);
      SharedBelow(nd.Mem(), log, m, d.upto);
    }
  }

  lemma SharedBelow(mem: Log, log: Log, m: nat, k: nat)
    requires Parts(mem, log, m) && k <= |log| && log[..k] <= mem
    ensures k <= m
  {
    assert forall i | 0 <= i < k :: mem[i] == log[..k][i];
  }

  /** A duplicate leaves the log as it is. */
  lemma DuplicateOk(h: Hist, nd: Node, req: Message)
    requires HistOk(h) && NodeOk(h, nd.id, nd) && nd.role == Follower && nd.term == req.term
    requires req.AppendReq? && MessageOk(h, req) && req.entries != []
    requires req.prev + |req.entries| > nd.applied
    requires var last := req.prev + |req.entries|; last <= |nd.Mem()| && nd.Mem()[..last] == h.el[nd.term].log[..last]
    requires FirstConflict(nd.Mem(), req.prev, req.entries) == |req.entries|
    ensures NodeOk(h, nd.id, FollowerAppend(nd, req))
  {
    hide NodeOk, HistOk, HoldsPromises, FollowerDoneOk, MessageOk, RecallOk, Inherits, ConfOf;
    var last := req.prev + |req.entries|;
    var done := FollowerDone(nd.term, last, Min(req.commit, last));
    var mem := nd.Mem();
    FollowerDoneFromRequest(h, nd, req);
    MemHolds(h, nd);
    PartsInMem(h, nd);
    assert mem[..|mem|] == mem;
    InheritsExtend(h, mem, mem, nd.term + 1);
    RecallOne(h, nd, mem, done);
    LeaderHasTerm(h, req);
    EnqueueOk(h, nd, [mem], done, |mem|);
    assert FollowerAppend(nd, req).queue == Enqueue(nd, [mem], done).queue;
  }

  lemma PartsInMem(h: Hist, nd: Node)
    requires NodeOk(h, nd.id, nd)
    ensures nd.commit <= |nd.Mem()|
    ensures forall k | 0 <= k < |nd.queue| && nd.queue[k].done.FollowerDone? && nd.queue[k].done.term == nd.term ::
              nd.queue[k].done.upto <= |nd.Mem()|
    ensures forall d | d in nd.ready && d.FollowerDone? && d.term == nd.term :: d.upto <= |nd.Mem()|
  {
    hide QueueOk, VersionsOk, RecallOk;
    PendingInMem(h, nd);
  }

  lemma LeaderHasTerm(h: Hist, req: Message)
    requires req.AppendReq? && MessageOk(h, req)
    ensures req.term in h.el && req.prev + |req.entries| <= |h.el[req.term].log|
  {
  }

  lemma RecallOne(h: Hist, nd: Node, log: Log, done: Done)
    requires NodeOk(h, nd.id, nd) && Inherits(h, nd.Mem(), log, nd.term + 1)
    ensures RecallOk(h, nd.id, nd.durable, Enqueue(nd, [log], done).queue, nd.term)
  {
    assert VersionAt(nd.durable, nd.queue, |nd.queue|) == nd.Mem();
    RecallAdd(h, nd.id, nd.durable, nd.queue, nd.term, DiskItem(log, done));
    assert Enqueue(nd, [log], done).queue == nd.queue + [DiskItem(log, done)];
  }

  /** A cut and what follows it. */
  lemma RecallTwo(h: Hist, nd: Node, cut: Log, log: Log, done: Done)
    requires NodeOk(h, nd.id, nd) && Inherits(h, nd.Mem(), cut, nd.term + 1) && cut <= log
    ensures RecallOk(h, nd.id, nd.durable, Enqueue(nd, [cut, log], done).queue, nd.term)
  {
    var mid := nd.queue + [DiskItem(cut, NoDone)];
    assert VersionAt(nd.durable, nd.queue, |nd.queue|) == nd.Mem();
    RecallAdd(h, nd.id, nd.durable, nd.queue, nd.term, DiskItem(cut, NoDone));
    assert VersionAt(nd.durable, mid, |mid|) == cut;
    InheritsExtend(h, cut, log, nd.term + 1);
    RecallAdd(h, nd.id, nd.durable, mid, nd.term, DiskItem(log, done));
    assert Enqueue(nd, [cut, log], done).queue == mid + [DiskItem(log, done)];
  }

  /** Cutting where the log parts from the leader's loses only what the leader lacked. */
  lemma InheritsCut(h: Hist, nd: Node, cut: Log, m: nat)
    requires HistOk(h) && NodeOk(h, nd.id, nd) && nd.term in h.el
    requires Parts(nd.Mem(), h.el[nd.term].log, m) && nd.Mem()[..m] <= cut
    ensures Inherits(h, nd.Mem(), cut, nd.term + 1)
  {
    MemHolds(h, nd);
    var mem, bound := nd.Mem(), nd.term + 1;
    forall a | Keeps(h, a, mem, bound)
      ensures Keeps(h, a, cut, bound)
    {
      KeepsCut(h, a, mem, cut, nd.term, m);
    }
  }

  lemma PendingInMem(h: Hist, nd: Node)
    requires QueueOk(h, nd)
    ensures forall k | 0 <= k < |nd.queue| && nd.queue[k].done.FollowerDone? && nd.queue[k].done.term == nd.term ::
              nd.queue[k].done.upto <= |nd.Mem()|
    ensures forall d | d in nd.ready && d.FollowerDone? && d.term == nd.term :: d.upto <= |nd.Mem()|
  {
    forall k | 0 <= k < |nd.queue| && nd.queue[k].done.FollowerDone? && nd.queue[k].done.term == nd.term
      ensures nd.queue[k].done.upto <= |nd.Mem()|
    {
      assert ItemHeld(h, nd, k, |nd.queue| - 1);
    }
    forall d | d in nd.ready && d.FollowerDone? && d.term == nd.term
      ensures d.upto <= |nd.Mem()|
    {
      assert ReadyOk(h, nd, d);
    }
  }

  /** A conflict cuts the log where it parts from the leader's and goes on with the request. */
  lemma ConflictOk(h: Hist, nd: Node, req: Message)
    requires HistOk(h) && NodeOk(h, nd.id, nd) && nd.role == Follower && nd.term == req.term
    requires req.AppendReq? && MessageOk(h, req) && req.prev <= |nd.Mem()| && req.prev + |req.entries| > nd.applied
    requires var j := FirstConflict(nd.Mem(), req.prev, req.entries);
             && j < |req.entries| && Parts(nd.Mem(), h.el[nd.term].log, req.prev + j)
             && Resolve(nd.Mem(), req.prev, req.entries) == h.el[nd.term].log[..req.prev + |req.entries|]
    ensures NodeOk(h, nd.id, FollowerAppend(nd, req))
  {
    hide NodeOk, HistOk, HoldsPromises, FollowerDoneOk, Covered, FollowerAppend, Enqueue;
    var mem, log := nd.Mem(), h.el[nd.term].log;
    var last := req.prev + |req.entries|;
    var m := req.prev + FirstConflict(mem, req.prev, req.entries);
    FollowerDoneFromRequest(h, nd, req);
    CommittedIsNotCut(h, nd, m);
    PendingBelow(h, nd, m);
    CutLogsHold(h, nd, m, last);
    var done := FollowerDone(nd.term, last, Min(req.commit, last));
    var logs := if m < |mem| then [mem[..m], log[..last]] else [log[..last]];
    if m < |mem| {
      InheritsCut(h, nd, mem[..m], m);
      RecallTwo(h, nd, mem[..m], log[..last], done);
    } else {
      InheritsCut(h, nd, log[..last], m);
      RecallOne(h, nd, log[..last], done);
    }
    EnqueueOk(h, nd, logs, done, m);
    ConflictQueues(nd, req, logs);
  }

  /** A conflict queues a truncation, if there is anything to cut, and an append. */
  lemma ConflictQueues(nd: Node, req: Message, logs: seq<Log>)
    requires req.AppendReq? && req.prev <= |nd.Mem()| && req.prev + |req.entries| > nd.applied
    requires FirstConflict(nd.Mem(), req.prev, req.entries) < |req.entries|
    requires var m := req.prev + FirstConflict(nd.Mem(), req.prev, req.entries);
             var rest := Resolve(nd.Mem(), req.prev, req.entries);
             logs == if m < |nd.Mem()| then [nd.Mem()[..m], rest] else [rest]
    ensures var last := req.prev + |req.entries|;
            FollowerAppend(nd, req) == Enqueue(nd, logs, FollowerDone(nd.term, last, Min(req.commit, last)))
  {
    var last := req.prev + |req.entries|;
    assert FollowerAppend(nd, req).queue == Enqueue(nd, logs, FollowerDone(nd.term, last, Min(req.commit, last))).queue;
  }

  lemma CutLogsHold(h: Hist, nd: Node, m: nat, last: nat)
    requires HistOk(h) && NodeOk(h, nd.id, nd) && nd.term in h.el
    requires Parts(nd.Mem(), h.el[nd.term].log, m) && m <= last <= |h.el[nd.term].log|
    ensures HoldsPromises(h, nd.id, nd.Mem()[..m], nd.term)
    ensures HoldsPromises(h, nd.id, h.el[nd.term].log[..last], nd.term)
    ensures nd.Mem()[..m] <= h.el[nd.term].log[..last]
  {
    var mem, log := nd.Mem(), h.el[nd.term].log;
    assert ElectionOk(h, nd.term);
    VersionHolds(h, nd, |nd.queue|);
    assert nd.Version(|nd.queue|) == mem;
    assert mem[..m] == log[..last][..m];
    LogOkPrefix(h, mem, m);
    LogOkPrefix(h, log, last);
    forall i | 0 <= i < last
      ensures log[i].term < nd.term + 1
    {
      assert i < |h.el[nd.term].base| ==> log[i] == h.el[nd.term].base[i];
    }
    HoldsPromisesCut(h, nd.id, mem, mem[..m], nd.term, m);
    HoldsPromisesCut(h, nd.id, mem, log[..last], nd.term, m);
  }

  // ---- the step

  lemma HandleAppendOk(h: Hist, id: PeerId, nd: Node, req: Message)
    requires HistOk(h) && NodeOk(h, id, nd) && req.AppendReq? && MessageOk(h, req) && req.term >= nd.term
    ensures NodeOk(h, id, HandleAppend(nd, req))
  {
    hide LogOk, Keeps, ConfOf, Covered, QueueOk, RecallOk, FollowerAppend;
    OneLeaderPerTerm(h, id, nd, req);
    var nd1 := CheckStepDown(nd, req.term, req.leader);
    var mem := nd1.Mem();
    if TermAt(mem, req.prev) == req.prevTerm && req.prev <= |mem| {
      if req.entries == [] {
        assert ElectionOk(h, nd1.term);
        VersionHolds(h, nd1, |nd1.queue|);
        assert nd1.Version(|nd1.queue|) == mem;
        PrevMatches(h, mem, h.el[req.term].log, req.prev);
        CommitFromRequest(h, mem, req, req.prev);
        SetLastCommittedOk(h, nd1, Min(req.commit, req.prev));
      } else {
        FollowerAppendOk(h, nd1, req);
      }
    }
  }

  lemma AppendReqStepOk(s: State, step: Step)
    requires Inv(s) && Enabled(s, step) && step.AppendReqStep?
    ensures Preserves(s, step)
  {
    hide MessageOk, ConfOf, Resolve;
    assert MessageOk(s.h, step.m);
    hide Inv, HistOk, NodeOk, Grows, SameFor, HandleAppend, CheckStepDown;
    NodeFacts(s, step.n);
    NothingNew(s.h);
    OneLeaderPerTerm(s.h, step.n, s.nodes[step.n], step.m);
    HandleAppendOk(s.h, step.n, s.nodes[step.n], step.m);
  }
}
