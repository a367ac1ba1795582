/** One raft node on values: what each handler of the node computes, with the node mutex held. */
module NodeSpec {
  import opened Types
  import opened Quorum
  import opened BallotSpec

  datatype Role = Leader | Candidate | Follower

  datatype Stage = Idle | CatchingUp | Joint | Stable

  /** The context of a membership change in progress. */
  datatype ChangeCtx = ChangeCtx(stage: Stage, newPeers: set<PeerId>, oldPeers: set<PeerId>,
                                 adding: set<PeerId>, nchanges: nat)

  const NoChange := ChangeCtx(Idle, {}, {}, {}, 0)

  /** What runs when a disk operation has finished. */
  datatype Done =
    | NoDone
    | LeaderDone(first: nat, last: nat)
    | FollowerDone(term: nat, upto: nat, commit: nat)

  /** A queued disk operation, given by the log the storage holds once it has run. */
  datatype DiskItem = DiskItem(log: Log, done: Done)

  datatype Message =
    | VoteReq(term: nat, cand: PeerId, last: LogId)
    | VoteResp(term: nat, voter: PeerId, cand: PeerId)
    | AppendReq(term: nat, leader: PeerId, to: PeerId, prev: nat, prevTerm: nat, entries: Log, commit: nat)
    | AppendResp(term: nat, from: PeerId, upto: nat)

  /** `term`, `voted` and `durable` survive a crash; `queue` holds the operations the disk has yet to run and
      `ready` the follower closures that run without waiting for the disk. */
  datatype Node = Node(id: PeerId, initial: Config, term: nat, voted: Option<PeerId>, role: Role,
                       leader: Option<PeerId>, durable: Log, queue: seq<DiskItem>, ready: set<Done>,
                       commit: nat, applied: nat, box: Box, votes: set<PeerId>, ctx: ChangeCtx) {
    /** The log in memory: the storage after every queued operation. */
    function Mem(): Log {
      if queue == [] then durable else queue[|queue| - 1].log
    }

    /** The log the storage holds after `k` queued operations. */
    function Version(k: nat): Log
      requires k <= |queue|
    {
      if k == 0 then durable else queue[k - 1].log
    }

    /** A log that a restart may find after `k` queued operations, or in the middle of the next one: a part of what
        it appends, or what is left of a truncation that was stopped. */
    predicate MayFind(k: nat, log: Log)
      requires k <= |queue|
    {
      || log == Version(k)
      || (k < |queue| && Version(k) <= log <= Version(k + 1))
      || (k < |queue| && Version(k + 1) <= log <= Version(k))
    }

    function Conf(): Config {
      ConfOf(initial, Mem())
    }
  }

  function InitNode(id: PeerId, initial: Config): Node {
    Node(id, initial, 1, None, Follower, None, [], [], {}, 0, 0, NoBox, {}, NoChange)
  }

  // ---- stepping down and restarting

  function StepDown(nd: Node, term: nat): Node {
    var nd := nd.(role := Follower, leader := None, votes := {}, box := NoBox, ctx := NoChange);
    if term > nd.term then nd.(term := term, voted := None) else nd
  }

  /** A restart: only the persistent term, vote and log remain. */
  function Restart(nd: Node, durable: Log): Node {
    Node(nd.id, nd.initial, nd.term, nd.voted, Follower, None, durable, [], {}, 0, 0, NoBox, {}, NoChange)
  }

  // ---- elections

  /** The node votes for itself; its own vote is counted like any other, once its lease allows. */
  function ElectSelf(nd: Node): Node {
    nd.(term := nd.term + 1, voted := Some(nd.id), role := Candidate, leader := None, votes := {})
  }

  /** The log check and the vote itself; the request's term is not smaller than the node's. `own` is the last id that
      the node gives for its log. */
  function HandleVoteReq(nd: Node, term: nat, cand: PeerId, last: LogId, own: LogId): Node {
    var ok := last.AtLeast(own);
    var nd1 := if term > nd.term then StepDown(nd, term) else nd;
    if ok && nd1.voted.None? then StepDown(nd1, term).(voted := Some(cand)) else nd1
  }

  function HandleVoteResp(nd: Node, voter: PeerId): Node {
    nd.(votes := nd.votes + {voter})
  }

  // ---- appending on the leader

  function LastConfIndex(log: Log): nat {
    if log == [] then 0
    else if log[|log| - 1].payload.Conf? then |log|
    else LastConfIndex(log[..|log| - 1])
  }

  /** Ballots and log entries for `entries`, all decided by `conf`. */
  function LeaderAppend(nd: Node, entries: Log, conf: Config): Node {
    var log := nd.Mem() + entries;
    nd.(box := Box(nd.box.pending, nd.box.ballots + seq(|entries|, i => BallotState(conf, {}))),
        queue := nd.queue + [DiskItem(log, LeaderDone(|nd.Mem()| + 1, |log|))])
  }

  function ApplyTasks(nd: Node, values: seq<int>): Node {
    LeaderAppend(nd, seq(|values|, i requires 0 <= i < |values| => Entry(nd.term, Data(values[i]))), nd.Conf())
  }

  /** The new configuration decides the quorum of its own entry. */
  function ApplyConfiguration(nd: Node, conf: Config): Node {
    LeaderAppend(nd, [Entry(nd.term, Payload.Conf(conf))], conf)
  }

  function BecomeLeader(nd: Node): Node {
    var conf := nd.Conf();
    var ctx := if conf.Stable()
               then ChangeCtx(Stable, conf.peers, conf.peers, {}, 0)
               else ChangeCtx(Joint, conf.peers, conf.oldPeers, {}, 0);
    ApplyConfiguration(
      nd.(role := Leader, leader := Some(nd.id), votes := {}, box := Box(|nd.Mem()| + 1, []), ctx := ctx), conf)
  }

  // ---- membership changes on the leader

  function NextStage(nd: Node): Node {
    match nd.ctx.stage
    case CatchingUp =>
      if nd.ctx.nchanges > 1
      then ApplyConfiguration(nd.(ctx := nd.ctx.(stage := Joint)), Config(nd.ctx.newPeers, nd.ctx.oldPeers))
      else ApplyConfiguration(nd.(ctx := nd.ctx.(stage := Stable)), Config(nd.ctx.newPeers, {}))
    case Joint =>
      ApplyConfiguration(nd.(ctx := nd.ctx.(stage := Stable)), Config(nd.ctx.newPeers, {}))
    case Stable =>
      var done := nd.(ctx := NoChange);
      if nd.id in nd.ctx.newPeers then done else StepDown(done, nd.term)
    case Idle => nd
  }

  function StartChange(nd: Node, peers: set<PeerId>): Node {
    var oldPeers := nd.Conf().peers;
    var adding := peers - oldPeers;
    var started := nd.(ctx := ChangeCtx(CatchingUp, peers, oldPeers, adding, |adding| + |oldPeers - peers|));
    if adding == {} then NextStage(started) else started
  }

  function OnCaughtUp(nd: Node, peer: PeerId, ok: bool): Node {
    if ok then
      var adding := nd.ctx.adding - {peer};
      var nd1 := nd.(ctx := nd.ctx.(adding := adding));
      if adding == {} then NextStage(nd1) else nd1
    else nd.(ctx := NoChange)
  }

  // ---- appending on a follower

  function CheckStepDown(nd: Node, term: nat, server: PeerId): Node {
    var nd1 := if term > nd.term || nd.role != Follower || nd.leader.None? then StepDown(nd, term) else nd;
    if nd1.leader.None? then nd1.(leader := Some(server)) else nd1
  }

  /** The first position of `entries` that the log does not hold with the same term. */
  function FirstConflict(log: Log, prev: nat, entries: Log): (j: nat)
    ensures j <= |entries|
    ensures prev <= |log| ==> prev + j <= |log|
    decreases |entries|
  {
    if entries == [] then 0
    else if prev >= |log| || log[prev].term != entries[0].term then 0
    else 1 + FirstConflict(log, prev + 1, entries[1..])
  }

  /** The log after the request: the old log up to the first conflict, then the rest of the request. */
  function Resolve(log: Log, prev: nat, entries: Log): Log
    requires prev <= |log|
  {
    var j := FirstConflict(log, prev, entries);
    if j == |entries| then log else log[..prev + j] + entries[j..]
  }

  function SetLastCommitted(nd: Node, index: nat): Node {
    if nd.box.pending != 0 then nd else nd.(commit := Max(nd.commit, index))
  }

  /** Queue the disk operations of a non-empty request whose previous entry is in the log. */
  function FollowerAppend(nd: Node, req: Message): Node
    requires req.AppendReq? && req.prev <= |nd.Mem()|
  {
    var last := req.prev + |req.entries|;
    var done := FollowerDone(nd.term, last, Min(req.commit, last));
    if last <= nd.applied then nd.(ready := nd.ready + {done})
    else
      var mem := nd.Mem();
      var j := FirstConflict(mem, req.prev, req.entries);
      var cut := if j < |req.entries| && req.prev + j < |mem| then [DiskItem(mem[..req.prev + j], NoDone)] else [];
      nd.(queue := nd.queue + cut + [DiskItem(Resolve(mem, req.prev, req.entries), done)])
  }

  /** `handle_append_entries_request`; a request of a smaller term is dropped before this point. */
  function HandleAppend(nd: Node, req: Message): Node
    requires req.AppendReq?
  {
    var nd1 := CheckStepDown(nd, req.term, req.leader);
    if nd1.leader != Some(req.leader) then StepDown(nd1, req.term + 1)
    else if TermAt(nd1.Mem(), req.prev) != req.prevTerm || req.prev > |nd1.Mem()| then nd1
    else if req.entries == [] then SetLastCommitted(nd1, Min(req.commit, req.prev))
    else FollowerAppend(nd1, req)
  }

  // ---- acknowledgements

  /** `commit_at` on the node's ballot box, publishing the new committed index. */
  function CommitOn(nd: Node, first: nat, last: nat, peer: PeerId): Node {
    var r := CommitAt(nd.box, first, last, peer);
    nd.(box := r.box, commit := if r.committed == 0 then nd.commit else r.committed)
  }

  /** Run a closure: the leader grants itself, a follower answers unless its term moved on. */
  function RunDone(nd: Node, done: Done): Node {
    match done
    case NoDone => nd
    case LeaderDone(first, last) => CommitOn(nd, first, last, nd.id)
    case FollowerDone(term, upto, commit) => if term == nd.term then SetLastCommitted(nd, commit) else nd
  }

  function Replies(nd: Node, done: Done): set<Message> {
    if done.FollowerDone? && done.term == nd.term then {AppendResp(done.term, nd.id, done.upto)} else {}
  }

  function DiskStep(nd: Node): Node
    requires nd.queue != []
  {
    RunDone(nd.(durable := nd.queue[0].log, queue := nd.queue[1..]), nd.queue[0].done)
  }
}
