/** The group as a transition system: nodes, every message ever sent, and a history of what happened.

    Messages are never removed, so any message may be lost, delayed, reordered or delivered again. The
    history is written by the steps and read only by the proofs. */
module Protocol {
  import opened Types
  import opened Quorum
  import opened BallotSpec
  import opened NodeSpec

  /** A won election: the log the winner had, the log of its term so far, and the peers that voted. */
  datatype Election = Election(leader: PeerId, base: Log, log: Log, voters: set<PeerId>)

  /** A granted vote: the voter's log and the candidate's log when it was granted, and whether the term
      already had a leader by then. */
  datatype Vote = Vote(cand: PeerId, voterLog: Log, candLog: Log, late: bool)

  /** A candidacy announced with the given log. */
  datatype Candidacy = Candidacy(term: nat, cand: PeerId, log: Log)

  /** The leader of `term` committed its log up to `upto`, on the grants of `quorum`. */
  datatype Commit = Commit(term: nat, upto: nat, quorum: set<PeerId>)

  datatype Key = Key(peer: PeerId, term: nat)

  /** A log that `peer` once had on its disk. */
  datatype Holding = Holding(peer: PeerId, log: Log)

  datatype Hist = Hist(initial: Config, el: map<nat, Election>, votes: map<Key, Vote>,
                       cands: set<Candidacy>, acks: map<Key, nat>, commits: set<Commit>, held: set<Holding>)

  datatype State = State(nodes: map<PeerId, Node>, msgs: set<Message>, h: Hist)

  ghost predicate Init(s: State) {
    && s.msgs == {}
    && s.h == Hist(s.h.initial, map[], map[], {}, map[], {}, {})
    && forall n | n in s.nodes :: s.nodes[n] == InitNode(n, s.h.initial)
  }

  // ---- history updates

  function RecordElection(h: Hist, nd: Node, log: Log): Hist {
    h.(el := h.el[nd.term := Election(nd.id, nd.Mem(), log, nd.votes)])
  }

  /** The leader's log of its term follows the node's memory. */
  function RecordLog(h: Hist, nd: Node): Hist {
    if nd.role == Leader && nd.term in h.el
    then h.(el := h.el[nd.term := h.el[nd.term].(log := nd.Mem())])
    else h
  }

  function RecordVote(h: Hist, key: Key, vote: Vote): Hist {
    if key in h.votes then h else h.(votes := h.votes[key := vote])
  }

  function RecordAck(h: Hist, key: Key, upto: nat): Hist {
    h.(acks := h.acks[key := if key in h.acks then Max(h.acks[key], upto) else upto])
  }

  /** A commit of `last` on the grants that the ballot of `last` holds, with `peer` as the newest. */
  function RecordCommit(h: Hist, nd: Node, first: nat, last: nat, peer: PeerId): Hist {
    var c := CommitAt(nd.box, first, last, peer).committed;
    if c == 0 || c < nd.box.pending || c - nd.box.pending >= |nd.box.ballots| then h
    else h.(commits := h.commits + {Commit(nd.term, c, nd.box.ballots[c - nd.box.pending].granted + {peer})})
  }

  // ---- steps

  datatype Step =
    | RememberStep(n: PeerId)
    | ElectSelfStep(n: PeerId, claim: Log)
    | ElectCrashStep(n: PeerId, claim: Log)
    | VoteReqStep(n: PeerId, m: Message, candLog: Log, own: LogId)
    | VoteRespStep(n: PeerId, m: Message)
    | BecomeLeaderStep(n: PeerId)
    | ApplyTasksStep(n: PeerId, values: seq<int>)
    | StartChangeStep(n: PeerId, peers: set<PeerId>)
    | CaughtUpStep(n: PeerId, peer: PeerId, ok: bool)
    | ConfCommittedStep(n: PeerId)
    | SendAppendStep(n: PeerId, to: PeerId, prev: nat, count: nat)
    | AppendReqStep(n: PeerId, m: Message, taken: bool)
    | DiskStepStep(n: PeerId)
    | ReadyStep(n: PeerId, done: Done)
    | AppendRespStep(n: PeerId, m: Message, first: nat)
    | StepDownStep(n: PeerId, term: nat)
    | ApplyStep(n: PeerId, index: nat)
    | CrashStep(n: PeerId, k: nat, durable: Log)

  /** The last id that a node gives for its log may be that of a log it once had on disk, when that id is larger: the
      disk thread remembers the largest id it has written. */
  predicate Claims(h: Hist, nd: Node, claim: Log) {
    claim == nd.Mem() || (Holding(nd.id, claim) in h.held && LastId(claim).AtLeast(LastId(nd.Mem())))
  }

  /** When a step can happen; `nd` is the node that takes it. */
  predicate Enabled(s: State, step: Step) {
    && step.n in s.nodes
    && var nd := s.nodes[step.n];
       match step
       case RememberStep(_) => true
       case ElectSelfStep(_, claim) =>
         nd.role != Leader && nd.Conf().Contains(nd.id) && nd.queue == [] && Claims(s.h, nd, claim)
       case ElectCrashStep(_, claim) =>
         nd.role != Leader && nd.Conf().Contains(nd.id) && nd.queue == [] && Claims(s.h, nd, claim)
       case VoteReqStep(_, m, candLog, own) =>
         // the id that was read is not below what is on disk when the vote is given
         && m in s.msgs && m.VoteReq? && m.cand != nd.id && m.term >= nd.term && own.AtLeast(LastId(nd.durable))
         && Candidacy(m.term, m.cand, candLog) in s.h.cands && LastId(candLog) == m.last
       case VoteRespStep(_, m) =>
         m in s.msgs && m.VoteResp? && m.cand == nd.id && nd.role == Candidate && m.term == nd.term
       case BecomeLeaderStep(_) => nd.role == Candidate && IsQuorum(nd.votes, nd.Conf())
       case ApplyTasksStep(_, _) => nd.role == Leader
       case StartChangeStep(_, peers) =>
         nd.role == Leader && nd.ctx.stage == Idle && peers != nd.Conf().peers
       case CaughtUpStep(_, peer, ok) =>
         nd.role == Leader && nd.ctx.stage == CatchingUp && peer in nd.ctx.adding
       case ConfCommittedStep(_) =>
         && nd.role == Leader && nd.ctx.stage in {Joint, Stable}
         && LastConfIndex(nd.Mem()) <= nd.commit
       case SendAppendStep(_, to, prev, count) =>
         nd.role == Leader && to != nd.id && prev + count <= |nd.Mem()|
       case AppendReqStep(_, m, _) => m in s.msgs && m.AppendReq? && m.to == nd.id && m.term >= nd.term
       case DiskStepStep(_) => nd.queue != []
       case ReadyStep(_, done) => done in nd.ready
       case AppendRespStep(_, m, _) => m in s.msgs && m.AppendResp? && nd.role == Leader && m.term == nd.term
       case StepDownStep(_, term) => term >= nd.term
       case ApplyStep(_, index) => nd.applied <= index <= nd.commit
       case CrashStep(_, k, durable) => k <= |nd.queue| && nd.MayFind(k, durable)
  }

  function SendAppend(nd: Node, to: PeerId, prev: nat, count: nat): Message
    requires prev + count <= |nd.Mem()|
  {
    AppendReq(nd.term, nd.id, to, prev, TermAt(nd.Mem(), prev), nd.Mem()[prev..prev + count], nd.commit)
  }

  function HistAfterDone(h: Hist, nd: Node, done: Done): Hist {
    match done
    case NoDone => h
    case LeaderDone(first, last) =>
      if nd.role == Leader then RecordCommit(RecordAck(h, Key(nd.id, nd.term), last), nd, first, last, nd.id) else h
    case FollowerDone(term, upto, _) => if term == nd.term then RecordAck(h, Key(nd.id, term), upto) else h
  }

  datatype Effect = Effect(nd: Node, sent: set<Message>, h: Hist)

  /** The answer to a request for a vote, when `own` is the id that the node compares with. */
  function AnswerVote(nd: Node, h: Hist, m: Message, candLog: Log, own: LogId): Effect
    requires m.VoteReq?
  {
    var nd1 := HandleVoteReq(nd, m.term, m.cand, m.last, own);
    if nd1.term == m.term && nd1.voted == Some(m.cand)
    then Effect(nd1, {VoteResp(m.term, nd.id, m.cand)},
                RecordVote(h, Key(nd.id, m.term), Vote(m.cand, nd.durable, candLog, m.term in h.el)))
    else Effect(nd1, {}, h)
  }

  /** What the step does to its node, which messages it sends, and what the history records. */
  function Run(s: State, step: Step): Effect
    requires Enabled(s, step)
  {
    var nd, h := s.nodes[step.n], s.h;
    match step
    case RememberStep(n) => Effect(nd, {}, h.(held := h.held + {Holding(n, nd.durable)}))
    case ElectSelfStep(n, claim) =>
      var nd1 := ElectSelf(nd);
      var h1 := h.(cands := h.cands + {Candidacy(nd1.term, n, claim)});
      Effect(nd1, {VoteReq(nd1.term, n, LastId(claim)), VoteResp(nd1.term, n, n)},
             RecordVote(h1, Key(n, nd1.term), Vote(n, nd.Mem(), claim, nd1.term in h.el)))
    case ElectCrashStep(n, claim) =>
      // the requests go out before term and vote are persisted; the node stops in between
      Effect(Restart(nd, nd.durable), {VoteReq(nd.term + 1, n, LastId(claim))},
             h.(cands := h.cands + {Candidacy(nd.term + 1, n, claim)}))
    case VoteReqStep(n, m, candLog, own) => AnswerVote(nd, h, m, candLog, own)
    case VoteRespStep(n, m) => Effect(HandleVoteResp(nd, m.voter), {}, h)
    case BecomeLeaderStep(n) =>
      var nd1 := BecomeLeader(nd);
      Effect(nd1, {}, RecordElection(h, nd, nd1.Mem()))
    case ApplyTasksStep(n, values) =>
      var nd1 := ApplyTasks(nd, values);
      Effect(nd1, {}, RecordLog(h, nd1))
    case StartChangeStep(n, peers) =>
      var nd1 := StartChange(nd, peers);
      Effect(nd1, {}, RecordLog(h, nd1))
    case CaughtUpStep(n, peer, ok) =>
      var nd1 := OnCaughtUp(nd, peer, ok);
      Effect(nd1, {}, RecordLog(h, nd1))
    case ConfCommittedStep(n) =>
      var nd1 := NextStage(nd);
      Effect(nd1, {}, RecordLog(h, nd1))
    case SendAppendStep(n, to, prev, count) => Effect(nd, {SendAppend(nd, to, prev, count)}, h)
    case AppendReqStep(n, m, taken) =>
      // a request may be put off or turned away after the terms were compared: the node is busy with a snapshot, keeps
      // the request in its cache, or cannot read the term of the previous entry
      Effect(if taken then HandleAppend(nd, m) else CheckStepDown(nd, m.term, m.leader), {}, h)
    case DiskStepStep(n) =>
      Effect(DiskStep(nd), Replies(nd, nd.queue[0].done), HistAfterDone(h, nd, nd.queue[0].done))
    case ReadyStep(n, done) =>
      Effect(RunDone(nd.(ready := nd.ready - {done}), done), Replies(nd, done), h)
    case AppendRespStep(n, m, first) =>
      Effect(CommitOn(nd, first, m.upto, m.from), {}, RecordCommit(h, nd, first, m.upto, m.from))
    case StepDownStep(n, term) => Effect(StepDown(nd, term), {}, h)
    case ApplyStep(n, index) => Effect(nd.(applied := index), {}, h)
    case CrashStep(n, k, durable) => Effect(Restart(nd, durable), {}, h)
  }

  function Do(s: State, step: Step): State
    requires Enabled(s, step)
  {
    var e := Run(s, step);
    State(s.nodes[step.n := e.nd], s.msgs + e.sent, e.h)
  }

  ghost predicate Next(s: State, t: State) {
    exists step :: Enabled(s, step) && t == Do(s, step)
  }

  /** A run of the group from an initial state. */
  ghost predicate IsRun(run: seq<State>) {
    && run != [] && Init(run[0])
    && forall i | 0 <= i < |run| - 1 :: Next(run[i], run[i + 1])
  }
}
