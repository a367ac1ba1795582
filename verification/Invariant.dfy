/** The invariant of every reachable state, split by what it speaks about: the history, one node, one message. */
module Invariant {
  import opened Types
  import opened Quorum
  import opened BallotSpec
  import opened NodeSpec
  import opened Protocol

  // ---- logs

  /** The entry at position `i` was created by the leader of its term, after that leader's election, and
      everything up to it is what that leader's log holds. */
  ghost predicate EntryOk(h: Hist, log: Log, i: nat)
    requires i < |log|
  {
    var t := log[i].term;
    && t in h.el
    && |h.el[t].base| <= i < |h.el[t].log|
    && log[..i + 1] == h.el[t].log[..i + 1]
  }

  ghost predicate LogOk(h: Hist, log: Log) {
    forall i {:trigger EntryOk(h, log, i)} | 0 <= i < |log| :: EntryOk(h, log, i)
  }

  predicate TermsBelow(log: Log, term: nat) {
    forall i | 0 <= i < |log| :: log[i].term < term
  }

  /** Some leader elected after the last entry of `p` was written and before `term` did not have `p`. */
  ghost predicate Lost(h: Hist, p: Log, term: nat)
    requires p != []
  {
    exists u :: u in h.el && p[|p| - 1].term < u < term && !(p <= h.el[u].base)
  }

  /** Whatever prefix of `a` a node held, it is still in `b` unless a leader below `term` lacked it. */
  ghost predicate Keeps(h: Hist, a: Log, b: Log, term: nat) {
    forall k {:trigger KeepsAt(h, a, b, term, k)} | 0 < k <= |a| :: KeepsAt(h, a, b, term, k)
  }

  ghost predicate KeepsAt(h: Hist, a: Log, b: Log, term: nat, k: nat)
    requires 0 < k <= |a|
  {
    a[..k] <= b || Lost(h, a[..k], term)
  }

  /** `upto` entries of the log of `term` are covered by a commit of a leader of `term` or before. */
  ghost predicate Covered(h: Hist, log: Log, upto: nat, term: nat) {
    && upto <= |log|
    && (upto == 0 || exists c :: c in h.commits && CoveredBy(h, log, upto, term, c))
  }

  ghost predicate CoveredBy(h: Hist, log: Log, upto: nat, term: nat, c: Commit) {
    && c.term <= term && upto <= c.upto && c.term in h.el
    && c.upto <= |h.el[c.term].log|
    && upto <= |log|
    && log[..upto] == h.el[c.term].log[..upto]
  }

  predicate NoConf(log: Log, lo: nat, hi: nat) {
    hi <= |log| && forall i | lo <= i < hi :: !log[i].payload.Conf?
  }

  // ---- history

  ghost predicate Acked(h: Hist, p: PeerId, term: nat, upto: nat) {
    Key(p, term) in h.acks && upto <= h.acks[Key(p, term)]
  }

  ghost predicate VoteFor(h: Hist, voter: PeerId, term: nat, cand: PeerId) {
    Key(voter, term) in h.votes && h.votes[Key(voter, term)].cand == cand
  }

  /** Every vote of `voters` was given before the term had a leader. */
  ghost predicate AllEarly(h: Hist, term: nat, voters: set<PeerId>) {
    forall v | v in voters && Key(v, term) in h.votes :: !h.votes[Key(v, term)].late
  }

  /** `c` committed the configuration in force just before position `p` of the log of `t`. */
  ghost predicate ConfCommitted(h: Hist, t: nat, p: nat, c: Commit)
    requires t in h.el
  {
    c.term == t && |h.el[t].base| < c.upto <= p && NoConf(h.el[t].log, c.upto, p)
  }

  /** The rule for configuration entries: the first one of a term repeats the configuration of the election,
      each later one follows a commit of the one before it and is one change away from it. */
  ghost predicate ConfEntryOk(h: Hist, t: nat, p: nat)
    requires t in h.el && |h.el[t].base| <= p < |h.el[t].log|
  {
    var e := h.el[t];
    e.log[p].payload.Conf? ==>
      && IsChange(ConfOf(h.initial, e.log[..p]), e.log[p].payload.conf)
      && (p == |e.base| ==> e.log[p].payload.conf == ConfOf(h.initial, e.base))
      && (p > |e.base| ==> exists c :: c in h.commits && ConfCommitted(h, t, p, c))
  }

  ghost predicate ElectionOk(h: Hist, t: nat)
    requires t in h.el
  {
    var e := h.el[t];
    && |e.base| < |e.log| && e.base == e.log[..|e.base|]
    && TermsBelow(e.base, t)
    && (forall i | |e.base| <= i < |e.log| :: e.log[i].term == t)
    && LogOk(h, e.log)
    && e.log[|e.base|].payload.Conf?
    && (forall p {:trigger ConfEntryOk(h, t, p)} | |e.base| <= p < |e.log| :: ConfEntryOk(h, t, p))
    && IsQuorum(e.voters, ConfOf(h.initial, e.base))
    && (forall v {:trigger VoteFor(h, v, t, e.leader)} | v in e.voters :: VoteFor(h, v, t, e.leader))
    && AllEarly(h, t, e.voters)
    && (forall v {:trigger VoteFor(h, v, t, e.leader)} | v in e.voters && VoteFor(h, v, t, e.leader) :: Keeps(h, h.votes[Key(v, t)].candLog, e.base, t))
  }

  /** A vote went to a log at least as up to date as the voter's, and the voter still had what it acknowledged. */
  ghost predicate VoteOk(h: Hist, key: Key)
    requires key in h.votes
  {
    var v := h.votes[key];
    && LogOk(h, v.voterLog) && TermsBelow(v.voterLog, key.term)
    && LogOk(h, v.candLog) && TermsBelow(v.candLog, key.term)
    && LastId(v.candLog).AtLeast(LastId(v.voterLog))
    && Candidacy(key.term, v.cand, v.candLog) in h.cands
    && (v.late ==> key.term in h.el)
    && forall k {:trigger AckOk(h, k)} | k in h.acks && k.peer == key.peer && k.term < key.term && AckOk(h, k) ::
         Keeps(h, AckedLog(h, k), v.voterLog, if v.late then key.term + 1 else key.term)
  }

  ghost predicate AckOk(h: Hist, key: Key)
    requires key in h.acks
  {
    key.term in h.el && h.acks[key] <= |h.el[key.term].log|
  }

  ghost function AckedLog(h: Hist, key: Key): Log
    requires key in h.acks && AckOk(h, key)
  {
    h.el[key.term].log[..h.acks[key]]
  }

  ghost predicate CommitOk(h: Hist, c: Commit) {
    && c.term in h.el
    && |h.el[c.term].base| < c.upto <= |h.el[c.term].log|
    && IsQuorum(c.quorum, ConfOf(h.initial, h.el[c.term].log[..c.upto]))
    && forall p {:trigger Acked(h, p, c.term, c.upto)} | p in c.quorum :: Acked(h, p, c.term, c.upto)
  }

  ghost predicate CandidacyOk(h: Hist, c: Candidacy) {
    LogOk(h, c.log) && TermsBelow(c.log, c.term)
  }

  ghost predicate HistOk(h: Hist) {
    && (forall t {:trigger ElectionOk(h, t)} | t in h.el :: ElectionOk(h, t))
    && (forall k {:trigger VoteOk(h, k)} | k in h.votes :: VoteOk(h, k))
    && (forall k {:trigger AckOk(h, k)} | k in h.acks :: AckOk(h, k))
    && (forall c {:trigger CommitOk(h, c)} | c in h.commits :: CommitOk(h, c))
    && (forall c {:trigger CandidacyOk(h, c)} | c in h.cands :: CandidacyOk(h, c))
  }

  // ---- messages

  /** An acknowledgement is backed by the disk, by the election log, or by a commit that already happened. */
  ghost predicate RespOk(h: Hist, p: PeerId, term: nat, upto: nat) {
    && term in h.el && upto <= |h.el[term].log|
    && (Acked(h, p, term, upto) || upto <= |h.el[term].base|
        || exists c :: c in h.commits && c.term == term && upto <= c.upto)
  }

  ghost predicate MessageOk(h: Hist, m: Message) {
    match m
    case VoteReq(term, cand, last) => exists c :: c in h.cands && c.term == term && c.cand == cand && LastId(c.log) == last
    case VoteResp(term, voter, cand) => VoteFor(h, voter, term, cand)
    case AppendReq(term, leader, to, prev, prevTerm, entries, commit) =>
      && term in h.el && h.el[term].leader == leader && to != leader
      && prev + |entries| <= |h.el[term].log|
      && prevTerm == TermAt(h.el[term].log, prev)
      && entries == h.el[term].log[prev..prev + |entries|]
      && Covered(h, h.el[term].log, commit, term)
    case AppendResp(term, from, upto) => RespOk(h, from, term, upto)
  }

  // ---- nodes

  /** Everything a node may find on its disk after a crash, and its memory. */
  ghost predicate VersionsOk(h: Hist, nd: Node) {
    forall k {:trigger VersionOk(h, nd, k)} | 0 <= k <= |nd.queue| :: VersionOk(h, nd, k)
  }

  ghost predicate VersionOk(h: Hist, nd: Node, k: nat)
    requires k <= |nd.queue|
  {
    && LogOk(h, nd.Version(k)) && TermsBelow(nd.Version(k), nd.term + 1)
    && (forall a {:trigger AckOk(h, a)} | a in h.acks && a.peer == nd.id && AckOk(h, a) ::
          Keeps(h, AckedLog(h, a), nd.Version(k), nd.term + 1))
    && (forall c | c in h.cands && c.cand == nd.id && c.term == nd.term + 1 ::
          Keeps(h, c.log, nd.Version(k), nd.term + 1))
  }

  function VersionAt(durable: Log, queue: seq<DiskItem>, k: nat): Log
    requires k <= |queue|
  {
    if k == 0 then durable else queue[k - 1].log
  }

  /** What was on disk before is kept by every later version: the versions of the queue among themselves, and the
      logs the node once had. */
  ghost predicate RecallOk(h: Hist, id: PeerId, durable: Log, queue: seq<DiskItem>, term: nat) {
    && (forall j, k {:trigger VersionAt(durable, queue, j), VersionAt(durable, queue, k)} | 0 <= j <= k <= |queue| ::
          Keeps(h, VersionAt(durable, queue, j), VersionAt(durable, queue, k), term + 1))
    && (forall x | x in h.held && x.peer == id :: HoldingOk(h, x, durable, queue, term))
  }

  ghost predicate HoldingOk(h: Hist, x: Holding, durable: Log, queue: seq<DiskItem>, term: nat) {
    && LogOk(h, x.log) && TermsBelow(x.log, term + 1)
    && (forall k {:trigger VersionAt(durable, queue, k)} | 0 <= k <= |queue| ::
          Keeps(h, x.log, VersionAt(durable, queue, k), term + 1))
  }

  ghost predicate PromisesOk(h: Hist, nd: Node) {
    && (forall k | k in h.acks && k.peer == nd.id :: k.term <= nd.term)
    && (forall k | k in h.votes && k.peer == nd.id :: k.term <= nd.term)
    && (Key(nd.id, nd.term) in h.votes <==> nd.voted.Some?)
    && (nd.voted.Some? ==> VoteFor(h, nd.id, nd.term, nd.voted.value))
    && (forall c | c in h.cands && c.cand == nd.id :: c.term <= nd.term + 1)
    && (forall t | t in h.el && h.el[t].leader == nd.id :: t <= nd.term)
  }

  ghost predicate CandidateOk(h: Hist, nd: Node) {
    && nd.queue == [] && nd.leader.None?
    && TermsBelow(nd.durable, nd.term)
    && !(nd.term in h.el && h.el[nd.term].leader == nd.id)
    && (forall v | v in nd.votes :: VoteFor(h, v, nd.term, nd.id))
    && (forall c | c in h.cands && c.cand == nd.id && c.term == nd.term :: Keeps(h, c.log, nd.durable, nd.term))
  }

  ghost predicate BoxOk(h: Hist, nd: Node)
    requires nd.term in h.el
  {
    var e := h.el[nd.term];
    && |e.base| < nd.box.pending
    && nd.commit < nd.box.pending
    && nd.box.pending - 1 + |nd.box.ballots| == |e.log|
    && forall j {:trigger BallotOk(h, nd, j)} | 0 <= j < |nd.box.ballots| :: BallotOk(h, nd, j)
  }

  ghost predicate BallotOk(h: Hist, nd: Node, j: nat)
    requires nd.term in h.el && j < |nd.box.ballots| && nd.box.pending + j <= |h.el[nd.term].log|
  {
    && nd.box.ballots[j].conf == ConfOf(h.initial, h.el[nd.term].log[..nd.box.pending + j])
    && forall p | p in nd.box.ballots[j].granted :: Acked(h, p, nd.term, nd.box.pending + j)
  }

  /** Where a membership change stands: between changes the last configuration entry is committed. */
  ghost predicate CtxOk(h: Hist, nd: Node) {
    var conf := nd.Conf();
    match nd.ctx.stage
    case Idle => conf.Stable() && LastConfIndex(nd.Mem()) <= nd.commit
    case CatchingUp =>
      && conf.Stable() && LastConfIndex(nd.Mem()) <= nd.commit && nd.ctx.oldPeers == conf.peers
      && nd.ctx.nchanges == |nd.ctx.newPeers - nd.ctx.oldPeers| + |nd.ctx.oldPeers - nd.ctx.newPeers|
    case Joint => conf == Config(nd.ctx.newPeers, nd.ctx.oldPeers)
    case Stable => conf == Config(nd.ctx.newPeers, {})
  }

  ghost predicate LeaderOk(h: Hist, nd: Node) {
    LeaderLogOk(h, nd) && CtxOk(h, nd)
  }

  ghost predicate LeaderLogOk(h: Hist, nd: Node) {
    && nd.term in h.el && h.el[nd.term].leader == nd.id && h.el[nd.term].log == nd.Mem()
    && nd.leader == Some(nd.id)
    && (forall k | 0 <= k <= |nd.queue| :: nd.Version(k) <= nd.Mem())
    && (forall k, l | 0 <= k < l <= |nd.queue| :: |nd.Version(k)| <= |nd.Version(l)|)
    && (forall k | 0 <= k < |nd.queue| :: nd.queue[k].done.LeaderDone? && nd.queue[k].done.last == |nd.queue[k].log|)
    && (forall c | c in h.commits && c.term == nd.term :: c.upto <= nd.commit)
    && LastConfIndex(nd.Mem()) > |h.el[nd.term].base|
    && BoxOk(h, nd)
  }

  /** A closure that may still answer for the current term: the log it speaks about is there from its own
      disk operation onwards. */
  ghost predicate FollowerDoneOk(h: Hist, nd: Node, done: Done)
    requires done.FollowerDone?
  {
    done.term == nd.term ==>
      && nd.role == Follower && nd.term in h.el
      && done.commit <= done.upto <= |h.el[nd.term].log|
      && Covered(h, h.el[nd.term].log, done.commit, nd.term)
  }

  /** `log` starts with the first `upto` entries of the leader of `term`. */
  ghost predicate Held(h: Hist, term: nat, upto: nat, log: Log) {
    term in h.el && upto <= |h.el[term].log| && h.el[term].log[..upto] <= log
  }

  ghost predicate ItemOk(h: Hist, nd: Node, k: nat)
    requires k < |nd.queue|
  {
    nd.queue[k].done.FollowerDone? ==> FollowerDoneOk(h, nd, nd.queue[k].done)
  }

  ghost predicate ItemHeld(h: Hist, nd: Node, k: nat, l: nat)
    requires k <= l < |nd.queue|
  {
    nd.queue[k].done.FollowerDone? && nd.queue[k].done.term == nd.term ==>
      Held(h, nd.term, nd.queue[k].done.upto, nd.queue[l].log)
  }

  ghost predicate ReadyOk(h: Hist, nd: Node, d: Done) {
    && d.FollowerDone? && FollowerDoneOk(h, nd, d)
    && (d.term == nd.term ==> Held(h, nd.term, d.upto, nd.Mem()) && RespOk(h, nd.id, nd.term, d.upto))
  }

  ghost predicate QueueOk(h: Hist, nd: Node) {
    && (forall k {:trigger ItemOk(h, nd, k)} | 0 <= k < |nd.queue| :: ItemOk(h, nd, k))
    && (forall k, l {:trigger ItemHeld(h, nd, k, l)} | 0 <= k <= l < |nd.queue| :: ItemHeld(h, nd, k, l))
    && (forall d {:trigger ReadyOk(h, nd, d)} | d in nd.ready :: ReadyOk(h, nd, d))
  }

  ghost predicate DoneTermsOk(nd: Node) {
    && (forall k | 0 <= k < |nd.queue| && nd.queue[k].done.FollowerDone? :: nd.queue[k].done.term <= nd.term)
    && (forall d | d in nd.ready :: d.FollowerDone? && d.term <= nd.term)
  }

  ghost predicate NodeOk(h: Hist, id: PeerId, nd: Node) {
    && nd.id == id && nd.initial == h.initial
    && VersionsOk(h, nd) && RecallOk(h, nd.id, nd.durable, nd.queue, nd.term)
    && PromisesOk(h, nd) && QueueOk(h, nd) && DoneTermsOk(nd)
    && nd.applied <= nd.commit && Covered(h, nd.Mem(), nd.commit, nd.term)
    && (nd.role == Candidate ==> CandidateOk(h, nd))
    && (if nd.role == Leader then LeaderOk(h, nd) else nd.box == NoBox)
    && (nd.role == Follower && nd.leader.Some? ==> nd.term in h.el && h.el[nd.term].leader == nd.leader.value)
  }

  ghost predicate Inv(s: State) {
    && HistOk(s.h)
    && (forall n {:trigger NodeOk(s.h, n, s.nodes[n])} | n in s.nodes :: NodeOk(s.h, n, s.nodes[n]))
    && (forall m {:trigger MessageOk(s.h, m)} | m in s.msgs :: MessageOk(s.h, m))
  }
}
