/** A raft node as the code keeps it: fields changed in place with the node mutex held, a ballot box, and the counters of
    a running election. Every handler is proved to do what the node of the protocol does. */
module NodeImpls {
  import opened Types
  import opened Quorum
  import opened BallotSpec
  import opened NodeSpec
  import opened Ballots
  import opened BallotBoxes
  import opened ClosureQueues

  const EPERM := 1
  const EBUSY := 16

  /** A user task; `expectedTerm` -1 accepts any term. */
  datatype Task = Task(value: int, expectedTerm: int, done: Option<Closure>)

  /** A leader of `term` takes the task. */
  predicate Takes(t: Task, term: nat) {
    t.expectedTerm == -1 || t.expectedTerm == term
  }

  /** The values of the tasks that a leader of `term` takes. */
  function Accepted(tasks: seq<Task>, term: nat): seq<int> {
    if tasks == [] then []
    else
      var last := tasks[|tasks| - 1];
      Accepted(tasks[..|tasks| - 1], term) + (if Takes(last, term) then [last.value] else [])
  }

  /** The closures of the tasks that are taken, or of those that are not, in order. */
  function Dones(tasks: seq<Task>, term: nat, taken: bool): seq<Option<Closure>> {
    if tasks == [] then []
    else
      var last := tasks[|tasks| - 1];
      Dones(tasks[..|tasks| - 1], term, taken) + (if Takes(last, term) == taken then [last.done] else [])
  }

  function AllDones(tasks: seq<Task>): (r: seq<Option<Closure>>)
    ensures |r| == |tasks|
  {
    seq(|tasks|, i requires 0 <= i < |tasks| => tasks[i].done)
  }

  /** Every closure of a request is among those taken or among those refused, as often as it came. */
  lemma {:induction false} DonesSplit(tasks: seq<Task>, term: nat)
    ensures multiset(Dones(tasks, term, true)) + multiset(Dones(tasks, term, false)) == multiset(AllDones(tasks))
    ensures |Dones(tasks, term, true)| == |Accepted(tasks, term)|
  {
    hide Dones, Accepted, AllDones;
    if tasks == [] {
      NoDones(term);
    } else {
      var n := |tasks| - 1;
      DonesSplit(tasks[..n], term);
      LastDone(tasks, term);
      OneMoreDone(Dones(tasks[..n], term, true), Dones(tasks[..n], term, false), AllDones(tasks[..n]), tasks[n].done);
    }
  }

  /** A task that is taken gets the next entry, with its own value and its own closure; one that is not leaves no trace
      among those. */
  lemma {:induction false} TakenAt(tasks: seq<Task>, term: nat, i: nat)
    requires i < |tasks|
    ensures var k := |Accepted(tasks[..i], term)|;
            && |Dones(tasks, term, true)| == |Accepted(tasks, term)|
            && Accepted(tasks[..i], term) <= Accepted(tasks, term)
            && (Takes(tasks[i], term) ==>
                  && k < |Accepted(tasks, term)| && Accepted(tasks, term)[k] == tasks[i].value
                  && Dones(tasks, term, true)[k] == tasks[i].done)
            && |Accepted(tasks[..i + 1], term)| == k + if Takes(tasks[i], term) then 1 else 0
    decreases |tasks|
  {
    hide Dones, Accepted, AllDones, Takes;
    var n := |tasks| - 1;
    DonesSplit(tasks, term);
    DonesSplit(tasks[..n], term);
    LastDone(tasks, term);
    LastTaken(tasks, term);
    if i < n {
      TakenAt(tasks[..n], term, i);
      assert tasks[..n][..i] == tasks[..i] && tasks[..n][..i + 1] == tasks[..i + 1] && tasks[..n][i] == tasks[i];
    } else {
      assert tasks[..i + 1] == tasks;
    }
  }

  lemma LastTaken(tasks: seq<Task>, term: nat)
    requires tasks != []
    ensures var n := |tasks| - 1;
            Accepted(tasks, term) == Accepted(tasks[..n], term) + if Takes(tasks[n], term) then [tasks[n].value] else []
  {
  }

  lemma NoDones(term: nat)
    ensures Dones([], term, true) == Dones([], term, false) == AllDones([]) == [] && Accepted([], term) == []
  {
  }

  lemma LastDone(tasks: seq<Task>, term: nat)
    requires tasks != []
    ensures var n, takes := |tasks| - 1, Takes(tasks[|tasks| - 1], term);
            && Dones(tasks, term, true) == Dones(tasks[..n], term, true) + (if takes then [tasks[n].done] else [])
            && Dones(tasks, term, false) == Dones(tasks[..n], term, false) + (if takes then [] else [tasks[n].done])
            && AllDones(tasks) == AllDones(tasks[..n]) + [tasks[n].done]
            && |Accepted(tasks, term)| == |Accepted(tasks[..n], term)| + if takes then 1 else 0
  {
  }

  lemma OneMoreDone(yes: seq<Option<Closure>>, no: seq<Option<Closure>>, all: seq<Option<Closure>>, done: Option<Closure>)
    requires multiset(yes) + multiset(no) == multiset(all)
    ensures multiset(yes + [done]) + multiset(no + []) == multiset(all + [done])
    ensures multiset(yes + []) + multiset(no + [done]) == multiset(all + [done])
  {
    assert yes + [] == yes && no + [] == no;
  }

  /** `disrupted`: the voter led a smaller term, `previousTerm`, until this request. */
  datatype VoteResponse =
    VoteResponse(term: nat, granted: bool, rejectedByLease: bool, disrupted: bool, previousTerm: nat)

  /** What counting votes makes of a candidate: it leads once they are a quorum. */
  function Counted(nd: Node, conf: Config, voters: set<PeerId>): Node {
    var voted := nd.(votes := nd.votes + voters);
    if IsQuorum(voted.votes, conf) then NodeSpec.BecomeLeader(voted) else voted
  }

  /** Busy: a snapshot is being installed. Cached: the request waits for what lies before it. Later: the answer is given
      when the entries are on disk. */
  datatype AppendResponse =
    | Refused(term: nat)
    | Busy
    | Unmatched(term: nat, lastLogIndex: nat)
    | Cached
    | Matched(term: nat)
    | Later

  /** What the meta storage holds. */
  datatype Meta = Meta(term: nat, votedFor: Option<PeerId>)

  class NodeImpl {
    const serverId: PeerId
    const initial: Config
    const ballotBox: BallotBox
    var state: Role
    var currentTerm: nat
    var votedId: Option<PeerId>
    var leaderId: Option<PeerId>
    var meta: Meta
    var conf: Config
    var voteCtx: Ballot
    var voteVersion: nat
    var confCtx: ChangeCtx
    var durable: Log
    var queue: seq<DiskItem>
    var ready: set<Done>
    var applied: nat

    function Mem(): Log
      reads this
    {
      if queue == [] then durable else queue[|queue| - 1].log
    }

    ghost function View(): Node
      reads this, ballotBox, voteCtx
    {
      Node(serverId, initial, currentTerm, votedId, state, leaderId, durable, queue, ready,
           ballotBox.lastCommittedIndex, applied, ballotBox.View(),
           if state == Candidate then voteCtx.view.granted else {}, confCtx)
    }

    ghost predicate Boxed()
      reads this, ballotBox, ballotBox.pendingMetaQueue, ballotBox.closureQueue
    {
      && ballotBox.Valid()
      && (state == Leader ==> ballotBox.pendingIndex > 0)
      && (state != Leader ==> ballotBox.View() == NoBox && ballotBox.pendingMetaQueue == [])
      && (state != Leader ==> ballotBox.closureQueue.queue == [])
    }

    ghost predicate Voting()
      reads this, voteCtx
    {
      state == Candidate ==> voteCtx.Valid() && voteCtx.view.conf == conf
    }

    /** What is stored is what is in memory, and the configuration is the last one of the log. */
    ghost predicate Valid()
      reads this, ballotBox, ballotBox.pendingMetaQueue, ballotBox.closureQueue, voteCtx
    {
      && Boxed() && Voting()
      && meta == Meta(currentTerm, votedId) && conf == ConfOf(initial, Mem())
    }

    /** Starts with what is stored: a follower of the stored term that has committed and applied nothing yet. A log whose
        last term is above the stored one raises the term and drops the vote. The
        first start finds term 1 and no vote. */
    constructor (id: PeerId, initial: Config, stored: Meta, log: Log)
      ensures Valid() && serverId == id && this.initial == initial && state == Follower && durable == Mem() == log
      ensures meta == if stored.term < LastTerm(log) then Meta(LastTerm(log) + 1, None) else stored
      ensures View() == Restart(InitNode(id, initial).(term := meta.term, voted := meta.votedFor), log)
      ensures stored == Meta(1, None) && log == [] ==> View() == InitNode(id, initial)
    {
      var m := if stored.term < LastTerm(log) then Meta(LastTerm(log) + 1, None) else stored;
      serverId, this.initial, state, currentTerm, votedId, leaderId := id, initial, Follower, m.term, m.votedFor, None;
      meta, conf, confCtx, voteVersion := m, ConfOf(initial, log), NoChange, 0;
      durable, queue, ready, applied := log, [], {}, 0;
      var closures := new ClosureQueue();
      ballotBox := new BallotBox(closures);
      voteCtx := new Ballot(initial);
    }

    // ---- stepping down

    /** A leader gives up its ballots; the closures behind them fail. */
    method ClearPendingTasks() returns (failed: seq<Closure>)
      requires Boxed()
      modifies ballotBox, ballotBox.closureQueue
      ensures ballotBox.Valid() && ballotBox.View() == NoBox && ballotBox.closureQueue.queue == []
      ensures ballotBox.pendingMetaQueue == []
      ensures ballotBox.lastCommittedIndex == old(ballotBox.lastCommittedIndex)
      ensures failed == if state == Leader then Closures(old(ballotBox.closureQueue.queue)) else []
    {
      failed := [];
      if state == Leader {
        failed := ballotBox.ClearPendingTasks();
      }
    }

    /** An election that was under way is over: answers to it will be ignored. */
    method StepDown(term: nat) returns (failed: seq<Closure>)
      requires Valid()
      modifies this, ballotBox, ballotBox.closureQueue
      ensures Valid() && View() == NodeSpec.StepDown(old(View()), term) && voteCtx == old(voteCtx)
      ensures voteVersion == old(voteVersion) + if old(state) == Candidate then 1 else 0
      ensures failed == if old(state) == Leader then Closures(old(ballotBox.closureQueue.queue)) else []
      ensures state == Follower && leaderId == None && confCtx == NoChange && ballotBox.View() == Box(0, [])
      ensures currentTerm == Max(old(currentTerm), term) && votedId == if term > old(currentTerm) then None else old(votedId)
      ensures ballotBox.lastCommittedIndex == old(ballotBox.lastCommittedIndex) && unchanged(`durable, `queue, `ready, `applied)
    {
      hide Ballot.Valid, BallotBox.Valid, ConfOf, Closures;
      failed := ClearPendingTasks();
      if state == Candidate {
        voteVersion := voteVersion + 1;
      }
      leaderId, state, confCtx := None, Follower, NoChange;
      if term > currentTerm {
        RaiseTerm(term);
      }
    }

    /** A new term starts without a vote; both are stored. */
    method RaiseTerm(term: nat)
      requires Valid() && state == Follower
      modifies `currentTerm, `votedId, `meta
      ensures Valid() && View() == old(View()).(term := term, voted := None)
    {
      hide Ballot.Valid, BallotBox.Valid, ConfOf;
      currentTerm, votedId := term, None;
      meta := Meta(term, None);
    }

    method CheckStepDown(requestTerm: nat, server: PeerId)
      requires Valid()
      modifies this, ballotBox, ballotBox.closureQueue
      ensures Valid() && View() == NodeSpec.CheckStepDown(old(View()), requestTerm, server)
      ensures state == Follower && currentTerm == Max(old(currentTerm), requestTerm)
      ensures votedId == if requestTerm > old(currentTerm) then None else old(votedId)
      ensures leaderId == if requestTerm <= old(currentTerm) && old(state) == Follower && old(leaderId).Some? then old(leaderId)
                          else Some(server)
      ensures ballotBox.lastCommittedIndex == old(ballotBox.lastCommittedIndex) && unchanged(`durable, `queue, `ready, `applied)
    {
      hide Ballot.Valid, BallotBox.Valid, ConfOf;
      if requestTerm > currentTerm {
        var _ := StepDown(requestTerm);
      } else if state != Follower {
        var _ := StepDown(requestTerm);
      } else if leaderId.None? {
        var _ := StepDown(requestTerm);
      }
      if leaderId.None? {
        leaderId := Some(server);
      }
    }

    // ---- elections

    /** Only a member of the configuration runs. Its own vote counts once term and vote are stored, and not before its
        lease allows: `votableTime` is positive until then. `lastLogId` is what the log manager answers after the disk
        has caught up. */
    method ElectSelf(lastLogId: LogId, votableTime: int, done: Closure) returns (requests: set<Message>)
      requires Valid() && state != Leader && queue == [] && confCtx == NoChange && ballotBox.lastCommittedIndex <= |Mem()|
      modifies this, ballotBox, ballotBox.closureQueue
      ensures Valid()
      ensures View() == if !old(conf).Contains(serverId) then old(View())
                        else if votableTime > 0 then NodeSpec.ElectSelf(old(View()))
                        else Counted(NodeSpec.ElectSelf(old(View())), old(conf), {serverId})
      ensures requests == if old(conf).Contains(serverId)
                          then {VoteReq(old(currentTerm) + 1, serverId, lastLogId)} else {}
      ensures old(conf).Contains(serverId) ==> voteVersion > old(voteVersion)
      ensures old(conf).Contains(serverId) ==>
                && currentTerm == old(currentTerm) + 1 && votedId == Some(serverId)
                && state == if votableTime <= 0 && IsQuorum({serverId}, old(conf)) then Leader else Candidate
    {
      hide Ballot.Valid, BallotBox.Valid, ConfOf, Counted;
      requests := {};
      if !conf.Contains(serverId) {
        return;
      }
      requests := {VoteReq(currentTerm + 1, serverId, lastLogId)};
      BecomeCandidate();
      assert {} + {serverId} == {serverId};
      if votableTime <= 0 {
        CountVotes({serverId}, serverId, done);
      }
    }

    method BecomeCandidate()
      requires Valid() && state != Leader && queue == []
      modifies this
      ensures Valid() && View() == NodeSpec.ElectSelf(old(View()))
      ensures state == Candidate && conf == old(conf) && fresh(voteCtx) && voteVersion > old(voteVersion)
      ensures confCtx == old(confCtx) && Mem() == old(Mem())
      ensures currentTerm == old(currentTerm) + 1 && votedId == Some(serverId) && leaderId == None
      ensures voteCtx.view == BallotState(conf, {})
    {
      hide Ballot.Valid, BallotBox.Valid, ConfOf;
      InitVote();
      leaderId, state, currentTerm, votedId := None, Candidate, currentTerm + 1, Some(serverId);
      meta := Meta(currentTerm, votedId);
    }

    /** A new ballot of the current configuration. */
    method InitVote()
      modifies `voteCtx, `voteVersion
      ensures fresh(voteCtx) && voteCtx.Valid() && voteCtx.view == BallotState(conf, {}) && voteVersion == old(voteVersion) + 1
    {
      voteCtx := new Ballot(conf);
      voteVersion := voteVersion + 1;
    }

    /** Counts the votes of one peer, or of a peer and the node itself. */
    method CountVotes(voters: set<PeerId>, peer: PeerId, done: Closure)
      requires Valid() && state == Candidate && confCtx == NoChange && ballotBox.lastCommittedIndex <= |Mem()|
      requires peer in voters && voters <= {peer, serverId}
      modifies this, voteCtx, ballotBox, ballotBox.closureQueue
      ensures Valid() && View() == Counted(old(View()), old(conf), voters) && voteVersion == old(voteVersion)
      ensures state == if IsQuorum(old(voteCtx.view.granted) + voters, old(conf)) then Leader else Candidate
      ensures state == Candidate ==> voteCtx.view.granted == old(voteCtx.view.granted) + voters && Mem() == old(Mem())
      ensures state == Leader ==> leaderId == Some(serverId) && Mem() == old(Mem()) + [Entry(currentTerm, Payload.Conf(old(conf)))]
      ensures currentTerm == old(currentTerm) && votedId == old(votedId)
    {
      hide BallotBox.Valid, ConfOf, IsQuorum, Lists, Missing;
      var _ := voteCtx.Grant(peer, NoHint);
      if serverId in voters {
        var _ := voteCtx.Grant(serverId, NoHint);
      }
      assert voteCtx.view.granted == old(voteCtx.view.granted) + voters;
      hide Ballot.Valid;
      if voteCtx.Granted() {
        BecomeLeader(done);
      }
    }

    /** The lease of the last leader has run out, so that the node's own vote counts. */
    method GrantSelf(ctxVersion: nat, done: Closure)
      requires Valid() && (state == Candidate ==> confCtx == NoChange && ballotBox.lastCommittedIndex <= |Mem()|)
      modifies this, voteCtx, ballotBox, ballotBox.closureQueue
      ensures Valid()
      ensures View() == if old(state) != Candidate || ctxVersion != old(voteVersion) then old(View())
                        else Counted(old(View()), old(conf), {serverId})
      ensures state == if old(state) == Candidate && ctxVersion == old(voteVersion)
                          && IsQuorum(old(voteCtx.view.granted) + {serverId}, old(conf)) then Leader else old(state)
    {
      hide Ballot.Valid, BallotBox.Valid, ConfOf, Counted;
      if state == Candidate && ctxVersion == voteVersion {
        CountVotes({serverId}, serverId, done);
      }
    }

    /** `previousTerm` is the node's term when the request came in, before the log manager was asked for `lastLogId`;
        `votableTime` is positive while a lease forbids to vote. */
    method HandleRequestVoteRequest(term: nat, candidate: PeerId, last: LogId, previousTerm: nat, lastLogId: LogId,
                                    votableTime: int)
      returns (response: VoteResponse)
      requires Valid() && previousTerm <= currentTerm
      modifies this, ballotBox, ballotBox.closureQueue
      ensures Valid()
      ensures var heard := term >= previousTerm == old(currentTerm);
              && View() == (if heard && votableTime <= 0 then HandleVoteReq(old(View()), term, candidate, last, lastLogId)
                            else old(View()))
              && (response.rejectedByLease <==> heard && votableTime > 0 && last.AtLeast(lastLogId))
              && (response.disrupted <==> heard && votableTime <= 0 && term > previousTerm && old(state) == Leader)
      ensures response.term == currentTerm && (response.granted <==> currentTerm == term && votedId == Some(candidate))
      ensures response.previousTerm == previousTerm
      ensures term >= previousTerm == old(currentTerm) && votableTime <= 0 ==>
                && currentTerm == Max(old(currentTerm), term)
                && (term > old(currentTerm) ==>
                      state == Follower && leaderId == None && votedId == if last.AtLeast(lastLogId) then Some(candidate) else None)
                && (term == old(currentTerm) && last.AtLeast(lastLogId) && old(votedId).None? ==>
                      votedId == Some(candidate) && state == Follower && leaderId == None)
                && (term == old(currentTerm) && !(last.AtLeast(lastLogId) && old(votedId).None?) ==>
                      votedId == old(votedId) && state == old(state) && leaderId == old(leaderId))
      ensures !(term >= previousTerm == old(currentTerm) && votableTime <= 0) ==>
                unchanged(`currentTerm, `votedId, `state, `leaderId)
      ensures ballotBox.lastCommittedIndex == old(ballotBox.lastCommittedIndex) && unchanged(`durable, `queue, `ready, `applied)
    {
      hide Ballot.Valid, BallotBox.Valid, ConfOf;
      var rejected, disrupted := false, false;
      if term >= previousTerm && previousTerm == currentTerm {
        var ok := last.AtLeast(lastLogId);
        if votableTime > 0 {
          rejected := ok;
        } else {
          if term > currentTerm {
            disrupted := state == Leader;
            var _ := StepDown(term);
          }
          if ok && votedId.None? {
            var _ := StepDown(term);
            votedId := Some(candidate);
            meta := Meta(currentTerm, votedId);
          }
        }
      }
      var granted := term == currentTerm && votedId == Some(candidate);
      response := VoteResponse(currentTerm, granted, rejected, disrupted, previousTerm);
    }

    // ---- the leader's log

    /** Appends to the log in memory and hands the entries to the disk; the configuration follows the log. */
    method AppendAsLeader(entries: Log)
      requires conf == ConfOf(initial, Mem())
      modifies `queue, `conf
      ensures queue == old(queue) + [DiskItem(old(Mem()) + entries, LeaderDone(|old(Mem())| + 1, |old(Mem())| + |entries|))]
      ensures conf == ConfOf(initial, Mem())
    {
      queue := queue + [DiskItem(Mem() + entries, LeaderDone(|Mem()| + 1, |Mem()| + |entries|))];
      conf := ConfOf(initial, Mem());
    }

    /** The new configuration decides the quorum of its own entry. */
    method UnsafeApplyConfiguration(newConf: Config, done: Closure)
      requires Valid() && state == Leader && confCtx.stage != Idle
      modifies this, ballotBox, ballotBox.closureQueue
      ensures Valid() && View() == ApplyConfiguration(old(View()), newConf) && voteVersion == old(voteVersion)
      ensures ballotBox.closureQueue.queue == old(ballotBox.closureQueue.queue) + [Some(done)]
      ensures Mem() == old(Mem()) + [Entry(currentTerm, Payload.Conf(newConf))] && conf == newConf
      ensures ballotBox.ballots == old(ballotBox.ballots) + [BallotState(newConf, {})]
      ensures unchanged(`state, `currentTerm, `votedId, `leaderId, `confCtx)
    {
      hide Ballot.Valid, BallotBox.Valid, ConfOf;
      NewConfHolds(initial, Mem(), Entry(currentTerm, Payload.Conf(newConf)));
      ballotBox.AppendPendingTask(newConf, Some(done));
      AppendAsLeader([Entry(currentTerm, Payload.Conf(newConf))]);
      assert seq(1, i => BallotState(newConf, {})) == [BallotState(newConf, {})];
    }

    /** The first entry of a term repeats the configuration; until it is committed no change may start. */
    method BecomeLeader(done: Closure)
      requires Valid() && state == Candidate && confCtx == NoChange && ballotBox.lastCommittedIndex <= |Mem()|
      modifies this, ballotBox, ballotBox.closureQueue
      ensures Valid() && View() == NodeSpec.BecomeLeader(old(View())) && voteVersion == old(voteVersion)
      ensures state == Leader && leaderId == Some(serverId) && unchanged(`currentTerm, `votedId)
      ensures Mem() == old(Mem()) + [Entry(currentTerm, Payload.Conf(old(conf)))]
      ensures ballotBox.View() == Box(|old(Mem())| + 1, [BallotState(old(conf), {})])
      ensures ballotBox.lastCommittedIndex == old(ballotBox.lastCommittedIndex)
    {
      hide Ballot.Valid, BallotBox.Valid, ConfOf;
      StartLeading();
      UnsafeApplyConfiguration(conf, done);
    }

    method StartLeading()
      requires Valid() && state == Candidate && ballotBox.lastCommittedIndex <= |Mem()|
      modifies this, ballotBox, ballotBox.closureQueue
      ensures Valid() && conf == old(conf) && voteVersion == old(voteVersion)
      ensures View() == old(View()).(role := Leader, leader := Some(serverId), votes := {}, box := Box(|old(Mem())| + 1, []),
                                     ctx := if conf.Stable() then ChangeCtx(Stable, conf.peers, conf.peers, {}, 0)
                                            else ChangeCtx(Joint, conf.peers, conf.oldPeers, {}, 0))
    {
      hide Ballot.Valid, BallotBox.Valid, ConfOf;
      ballotBox.ResetPendingIndex(|Mem()| + 1);
      state, leaderId := Leader, Some(serverId);
      confCtx := if conf.oldPeers == {} then ChangeCtx(Stable, conf.peers, conf.peers, {}, 0)
                 else ChangeCtx(Joint, conf.peers, conf.oldPeers, {}, 0);
    }

    /** The answer to a request for a vote. One that belongs to an earlier election changes nothing. The vote of the leader
        that the node last promised its own to sets that one free: both count. */
    method HandleRequestVoteResponse(peer: PeerId, term: nat, ctxVersion: nat, responseTerm: nat, granted: bool,
                                     lastLeader: Option<PeerId>, done: Closure)
      requires Valid() && (state == Candidate ==> confCtx == NoChange && ballotBox.lastCommittedIndex <= |Mem()|)
      modifies this, voteCtx, ballotBox, ballotBox.closureQueue
      ensures Valid()
      ensures View() == if ctxVersion != old(voteVersion) || old(state) != Candidate || term != old(currentTerm) then old(View())
                        else if responseTerm > old(currentTerm) then NodeSpec.StepDown(old(View()), responseTerm)
                        else if !granted then old(View())
                        else Counted(old(View()), old(conf), if lastLeader == Some(peer) then {peer, serverId} else {peer})
      ensures var ours := ctxVersion == old(voteVersion) && old(state) == Candidate && term == old(currentTerm);
              && currentTerm == (if ours then Max(old(currentTerm), responseTerm) else old(currentTerm))
              && state == if !ours then old(state) else if responseTerm > term then Follower
                          else if granted && IsQuorum(old(voteCtx.view.granted) +
                                                      (if lastLeader == Some(peer) then {peer, serverId} else {peer}), old(conf))
                          then Leader else Candidate
    {
      hide Ballot.Valid, BallotBox.Valid, ConfOf, Counted;
      if ctxVersion != voteVersion || state != Candidate || term != currentTerm {
        return;
      }
      if responseTerm > currentTerm {
        var _ := StepDown(responseTerm);
        return;
      }
      if !granted {
        return;
      }
      CountVotes(if lastLeader == Some(peer) then {peer, serverId} else {peer}, peer, done);
    }

    /** User tasks: a task that expects another term fails and is left out. `failed` are the closures of those, or of all
        tasks when the node is not the leader; every other closure waits for its entry. */
    method Apply(tasks: seq<Task>) returns (failed: seq<Option<Closure>>)
      requires Valid()
      modifies this, ballotBox, ballotBox.closureQueue
      ensures Valid()
      ensures View() == if old(state) == Leader then ApplyTasks(old(View()), Accepted(tasks, old(currentTerm))) else old(View())
      ensures failed == if old(state) == Leader then Dones(tasks, old(currentTerm), false) else AllDones(tasks)
      ensures ballotBox.closureQueue.queue == old(ballotBox.closureQueue.queue)
                + if old(state) == Leader then Dones(tasks, old(currentTerm), true) else []
      ensures Mem() == old(Mem()) + if old(state) == Leader then Entries(Accepted(tasks, currentTerm), currentTerm) else []
      ensures unchanged(`state, `currentTerm, `votedId, `leaderId, `confCtx)
    {
      hide Ballot.Valid, BallotBox.Valid, ConfOf, Dones, Accepted;
      failed := [];
      if state != Leader {
        failed := AllDones(tasks);
        return;
      }
      var entries;
      entries, failed := TakeTasks(tasks);
      AppendAsLeader(entries);
    }

    /** The entries of the tasks that are taken, with a ballot and a waiting closure for each of them. */
    method TakeTasks(tasks: seq<Task>) returns (entries: Log, failed: seq<Option<Closure>>)
      requires ballotBox.Valid() && ballotBox.pendingIndex > 0
      modifies ballotBox, ballotBox.closureQueue
      ensures ballotBox.Valid() && ballotBox.lastCommittedIndex == old(ballotBox.lastCommittedIndex)
      ensures entries == Entries(Accepted(tasks, currentTerm), currentTerm) && failed == Dones(tasks, currentTerm, false)
      ensures ballotBox.closureQueue.queue == old(ballotBox.closureQueue.queue) + Dones(tasks, currentTerm, true)
      ensures ballotBox.View() == Box(old(ballotBox.pendingIndex), old(ballotBox.ballots) + Fresh(conf, |entries|))
    {
      hide Ballot.Valid, BallotBox.Valid;
      entries, failed := [], [];
      var i := 0;
      while i < |tasks|
        invariant i <= |tasks| && ballotBox.Valid() && ballotBox.lastCommittedIndex == old(ballotBox.lastCommittedIndex)
        invariant entries == Entries(Accepted(tasks[..i], currentTerm), currentTerm)
        invariant failed == Dones(tasks[..i], currentTerm, false)
        invariant ballotBox.closureQueue.queue == old(ballotBox.closureQueue.queue) + Dones(tasks[..i], currentTerm, true)
        invariant ballotBox.View() == Box(old(ballotBox.pendingIndex), old(ballotBox.ballots) + Fresh(conf, |entries|))
      {
        assert tasks[..i + 1][..i] == tasks[..i];
        if tasks[i].expectedTerm != -1 && tasks[i].expectedTerm != currentTerm {
          failed := failed + [tasks[i].done];
        } else {
          assert Fresh(conf, |entries| + 1) == Fresh(conf, |entries|) + [BallotState(conf, {})];
          entries := entries + [Entry(currentTerm, Data(tasks[i].value))];
          ballotBox.AppendPendingTask(conf, tasks[i].done);
        }
        i := i + 1;
      }
      assert tasks[..i] == tasks;
    }

    // ---- membership changes

    /** The change in `ctx` has moved on by one stage, over the log `mem`. A joint configuration is appended exactly when
        more than one peer changes, then the new one; a change that is done leaves the log alone, and the leader goes on
        exactly when it is one of the new peers. */
    ghost predicate Staged(ctx: ChangeCtx, mem: Log)
      reads this
    {
      match ctx.stage
      case Idle => true
      case Stable =>
        && confCtx == NoChange && Mem() == mem
        && (state == Leader <==> serverId in ctx.newPeers) && (state != Leader ==> state == Follower && leaderId == None)
      case _ =>
        var joint := ctx.stage == CatchingUp && ctx.nchanges > 1;
        && state == Leader && confCtx == ctx.(stage := if joint then Joint else Stable)
        && Mem() == mem + [Entry(currentTerm, Payload.Conf(Config(ctx.newPeers, if joint then ctx.oldPeers else {})))]
    }

    method NextStage(done: Closure)
      requires Valid() && state == Leader && confCtx.stage != Idle
      modifies this, ballotBox, ballotBox.closureQueue
      ensures Valid() && View() == NodeSpec.NextStage(old(View()))
      ensures currentTerm == old(currentTerm) && Staged(old(confCtx), old(Mem()))
    {
      hide Ballot.Valid, BallotBox.Valid, ConfOf, ApplyConfiguration, NodeSpec.StepDown;
      match confCtx.stage {
        case CatchingUp =>
          if confCtx.nchanges > 1 {
            confCtx := confCtx.(stage := Joint);
            UnsafeApplyConfiguration(Config(confCtx.newPeers, confCtx.oldPeers), done);
          } else {
            confCtx := confCtx.(stage := Stable);
            UnsafeApplyConfiguration(Config(confCtx.newPeers, {}), done);
          }
        case Joint =>
          confCtx := confCtx.(stage := Stable);
          UnsafeApplyConfiguration(Config(confCtx.newPeers, {}), done);
        case Stable =>
          var shouldStepDown := serverId !in confCtx.newPeers;
          confCtx := NoChange;
          if shouldStepDown {
            var _ := StepDown(currentTerm);
          }
      }
    }

    method StartChange(newPeers: set<PeerId>, done: Closure)
      requires Valid() && state == Leader && confCtx.stage == Idle
      modifies this, ballotBox, ballotBox.closureQueue
      ensures Valid() && View() == NodeSpec.StartChange(old(View()), newPeers)
      ensures var oldPeers := old(conf).peers;
              var started := ChangeCtx(CatchingUp, newPeers, oldPeers, newPeers - oldPeers,
                                       |newPeers - oldPeers| + |oldPeers - newPeers|);
              && currentTerm == old(currentTerm)
              && (newPeers <= oldPeers ==> Staged(started, old(Mem())))
              && (!(newPeers <= oldPeers) ==> state == Leader && confCtx == started && Mem() == old(Mem()))
    {
      hide Ballot.Valid, BallotBox.Valid, ConfOf, NodeSpec.NextStage;
      var adding, removing := newPeers - conf.peers, conf.peers - newPeers;
      assert forall p | p in newPeers :: p in conf.peers || p in adding;
      confCtx := ChangeCtx(CatchingUp, newPeers, conf.peers, adding, |adding| + |removing|);
      if adding == {} {
        NextStage(done);
      }
    }

    /** A change is taken only by a leader that has no other change in progress. */
    method RegisterConfChange(newPeers: set<PeerId>, done: Closure) returns (code: int)
      requires Valid()
      modifies this, ballotBox, ballotBox.closureQueue
      ensures Valid()
      ensures code == if old(state) != Leader then EPERM else if old(confCtx).stage != Idle then EBUSY else 0
      ensures View() == if code == 0 && newPeers != old(conf).peers then NodeSpec.StartChange(old(View()), newPeers)
                        else old(View())
    {
      hide Ballot.Valid, BallotBox.Valid, ConfOf, NodeSpec.StartChange;
      if state != Leader {
        return EPERM;
      }
      if confCtx.stage != Idle {
        return EBUSY;
      }
      code := 0;
      if conf.peers == newPeers {
        return;
      }
      StartChange(newPeers, done);
    }

    method OnCaughtUp(peer: PeerId, ok: bool, done: Closure)
      requires Valid() && state == Leader && confCtx.stage == CatchingUp
      modifies this, ballotBox, ballotBox.closureQueue
      ensures Valid() && View() == NodeSpec.OnCaughtUp(old(View()), peer, ok)
      ensures currentTerm == old(currentTerm)
      ensures if ok && old(confCtx).adding <= {peer} then Staged(old(confCtx).(adding := {}), old(Mem()))
              else && state == Leader && Mem() == old(Mem())
                   && confCtx == if ok then old(confCtx).(adding := old(confCtx).adding - {peer}) else NoChange
    {
      hide Ballot.Valid, BallotBox.Valid, ConfOf, NodeSpec.NextStage;
      if ok {
        confCtx := confCtx.(adding := confCtx.adding - {peer});
        if confCtx.adding == {} {
          NextStage(done);
        }
        return;
      }
      confCtx := NoChange;
    }

    /** The entry of a configuration is committed; a notice of an older term is dropped. */
    method OnConfigurationChangeDone(term: nat, done: Closure)
      requires Valid() && (state == Leader && term == currentTerm ==> confCtx.stage != Idle)
      modifies this, ballotBox, ballotBox.closureQueue
      ensures Valid()
      ensures View() == if old(state) == Leader && term == old(currentTerm) then NodeSpec.NextStage(old(View())) else old(View())
      ensures currentTerm == old(currentTerm)
      ensures if old(state) == Leader && term == currentTerm then Staged(old(confCtx), old(Mem()))
              else unchanged(`state, `confCtx) && Mem() == old(Mem())
    {
      hide Ballot.Valid, BallotBox.Valid, ConfOf, NodeSpec.NextStage;
      if state != Leader || term != currentTerm {
        return;
      }
      NextStage(done);
    }

    // ---- following

    /** Resolves the request against the log and queues what the disk has to do. */
    method AppendAsFollower(req: Message)
      requires req.AppendReq? && req.prev <= |Mem()| && conf == ConfOf(initial, Mem())
      modifies `queue, `ready, `conf
      ensures conf == ConfOf(initial, Mem())
      ensures var last := req.prev + |req.entries|;
              var done := FollowerDone(currentTerm, last, Min(req.commit, last));
              if last <= applied then ready == old(ready) + {done} && queue == old(queue)
              else && ready == old(ready)
                   && var mem, j := old(Mem()), FirstConflict(old(Mem()), req.prev, req.entries);
                      var cut := if j < |req.entries| && req.prev + j < |mem| then [DiskItem(mem[..req.prev + j], NoDone)] else [];
                      queue == old(queue) + cut + [DiskItem(Resolve(mem, req.prev, req.entries), done)]
    {
      hide ConfOf;
      var last := req.prev + |req.entries|;
      var done := FollowerDone(currentTerm, last, Min(req.commit, last));
      if last <= applied {
        ready := ready + {done};
        return;
      }
      var mem := Mem();
      var j := FirstConflict(mem, req.prev, req.entries);
      if j < |req.entries| && req.prev + j < |mem| {
        queue := queue + [DiskItem(mem[..req.prev + j], NoDone)];
      }
      queue := queue + [DiskItem(Resolve(mem, req.prev, req.entries), done)];
      conf := ConfOf(initial, Mem());
    }

    /** A smaller index than before changes nothing; a leader never gets here with one it has not committed. */
    method SetLastCommittedIndex(index: nat)
      requires Valid() && (ballotBox.pendingIndex != 0 ==> index < ballotBox.pendingIndex)
      modifies ballotBox
      ensures Valid() && View() == SetLastCommitted(old(View()), index)
      ensures ballotBox.lastCommittedIndex == if ballotBox.pendingIndex == 0 then Max(old(ballotBox.lastCommittedIndex), index)
                                              else old(ballotBox.lastCommittedIndex)
    {
      hide Ballot.Valid, ConfOf;
      var _, _ := ballotBox.SetLastCommittedIndex(index);
    }

    /** The request comes from the leader the node follows. A request that leaves a gap goes to the cache, if there is
        one to use. */
    method AcceptRequest(req: Message, cache: bool) returns (response: AppendResponse)
      requires Valid() && req.AppendReq? && (req.prev > 0 ==> req.prevTerm > 0) && state == Follower
      modifies this, ballotBox
      ensures Valid()
      ensures var nd := old(View());
              View() == if TermAt(nd.Mem(), req.prev) != req.prevTerm || req.prev > |nd.Mem()| then nd
                        else if req.entries == [] then SetLastCommitted(nd, Min(req.commit, req.prev))
                        else FollowerAppend(nd, req)
      ensures response == if TermAt(old(Mem()), req.prev) != req.prevTerm then
                            if cache && |old(Mem())| < req.prev && req.entries != [] then Cached
                            else Unmatched(currentTerm, |old(Mem())|)
                          else if req.entries == [] then Matched(currentTerm) else Later
      ensures currentTerm == old(currentTerm) && leaderId == old(leaderId)
      ensures ballotBox.lastCommittedIndex ==
                if response.Matched? then Max(old(ballotBox.lastCommittedIndex), Min(req.commit, req.prev))
                else old(ballotBox.lastCommittedIndex)
    {
      hide Ballot.Valid, BallotBox.Valid, ConfOf, FirstConflict, Resolve;
      var localPrevTerm := TermAt(Mem(), req.prev);
      if localPrevTerm != req.prevTerm {
        if cache && |Mem()| < req.prev && req.entries != [] {
          return Cached;
        }
        return Unmatched(currentTerm, |Mem()|);
      }
      if req.entries == [] {
        SetLastCommittedIndex(Min(req.commit, req.prev));
        return Matched(currentTerm);
      }
      AppendAsFollower(req);
      response := Later;
    }

    /** A request names the term of its previous entry, 0 only for index 0. While a snapshot is installed no entries are
        taken. */
    method HandleAppendEntriesRequest(req: Message, installing: bool, cache: bool) returns (response: AppendResponse)
      requires Valid() && req.AppendReq? && (req.prev > 0 ==> req.prevTerm > 0)
      modifies this, ballotBox, ballotBox.closureQueue
      ensures Valid()
      ensures View() == if req.term < old(currentTerm) then old(View())
                        else if response.Busy? then NodeSpec.CheckStepDown(old(View()), req.term, req.leader)
                        else HandleAppend(old(View()), req)
      ensures response == if req.term < old(currentTerm) then Refused(currentTerm)
                          else if leaderId != Some(req.leader) then Refused(req.term + 1)
                          else if req.entries != [] && installing then Busy
                          else if TermAt(old(Mem()), req.prev) != req.prevTerm then
                            if cache && |old(Mem())| < req.prev && req.entries != [] then Cached
                            else Unmatched(currentTerm, |old(Mem())|)
                          else if req.entries == [] then Matched(currentTerm) else Later
      ensures ballotBox.lastCommittedIndex ==
                if response.Matched? then Max(old(ballotBox.lastCommittedIndex), Min(req.commit, req.prev))
                else old(ballotBox.lastCommittedIndex)
    {
      hide Ballot.Valid, BallotBox.Valid, ConfOf, FollowerAppend, SetLastCommitted, NodeSpec.CheckStepDown, NodeSpec.StepDown;
      if req.term < currentTerm {
        return Refused(currentTerm);
      }
      CheckedDown(View(), req.term, req.leader);
      CheckStepDown(req.term, req.leader);
      if leaderId != Some(req.leader) {
        SteppedDown(View(), req.term + 1);
        var _ := StepDown(req.term + 1);
        return Refused(req.term + 1);
      }
      if req.entries != [] && installing {
        return Busy;
      }
      response := AcceptRequest(req, cache);
    }

    // ---- the disk

    /** `peer` has the entries [first, last]: a follower that answered, or the leader's own disk. */
    method CommitAt(first: nat, last: nat, peer: PeerId)
      requires Valid()
      modifies ballotBox, ballotBox.pendingMetaQueue
      ensures Valid() && View() == CommitOn(old(View()), first, last, peer)
      ensures Committed(old(ballotBox.View()), first, last, peer, old(ballotBox.lastCommittedIndex))
    {
      hide Ballot.Valid, ConfOf, BallotSpec.CommitAt, LargestQuorum, Counts;
      StaysPending(ballotBox.View(), first, last, peer);
      CommitAtExactly(ballotBox.View(), first, last, peer);
      if Counts(ballotBox.View(), first, last) {
        OneLargest(ballotBox.View(), first, last, peer, BallotSpec.CommitAt(ballotBox.View(), first, last, peer).committed);
      }
      var _, _ := ballotBox.CommitAt(first, last, peer);
    }

    /** The committed index after `peer` was counted: the largest index of the range that now has a quorum, or what it was
        when there is none or nothing to count. */
    ghost predicate Committed(box: Box, first: nat, last: nat, peer: PeerId, commit: nat)
      reads ballotBox
    {
      if !Counts(box, first, last) || LargestQuorum(box, first, last, peer, 0) then ballotBox.lastCommittedIndex == commit
      else LargestQuorum(box, first, last, peer, ballotBox.lastCommittedIndex)
    }

    /** What the ballot box checks when a follower's closure reports a committed index. */
    predicate CommitOk(done: Done)
      reads this, ballotBox
    {
      done.FollowerDone? && done.term == currentTerm && ballotBox.pendingIndex != 0 ==> done.commit < ballotBox.pendingIndex
    }

    /** What a follower's closure does: in its own term it answers, and takes over the committed index it came with. */
    ghost predicate Learned(done: Done, commit: nat, pending: nat, sent: set<Message>)
      requires done.FollowerDone?
      reads this, ballotBox
    {
      && sent == (if done.term == currentTerm then {AppendResp(done.term, serverId, done.upto)} else {})
      && ballotBox.lastCommittedIndex == if done.term == currentTerm && pending == 0 then Max(commit, done.commit) else commit
    }

    /** The closure of a finished disk operation. A follower whose term moved on does not answer. */
    method RunClosure(done: Done) returns (sent: set<Message>)
      requires Valid() && CommitOk(done)
      modifies ballotBox, ballotBox.pendingMetaQueue
      ensures Valid() && View() == RunDone(old(View()), done) && sent == Replies(old(View()), done)
      ensures done.LeaderDone? ==>
                Committed(old(ballotBox.View()), done.first, done.last, serverId, old(ballotBox.lastCommittedIndex))
      ensures done.FollowerDone? ==> Learned(done, old(ballotBox.lastCommittedIndex), old(ballotBox.pendingIndex), sent)
    {
      hide Ballot.Valid, BallotBox.Valid, ConfOf, CommitOn, SetLastCommitted, LargestQuorum, Counts;
      sent := {};
      match done {
        case NoDone =>
        case LeaderDone(first, last) =>
          CommitAt(first, last, serverId);
        case FollowerDone(term, upto, commit) =>
          if term != currentTerm {
            return;
          }
          sent := {AppendResp(term, serverId, upto)};
          SetLastCommittedIndex(commit);
      }
    }

    /** The disk has run the first queued operation. */
    method OnDisk() returns (sent: set<Message>)
      requires Valid() && queue != [] && CommitOk(queue[0].done)
      modifies this, ballotBox, ballotBox.pendingMetaQueue
      ensures Valid() && View() == DiskStep(old(View())) && sent == Replies(old(View()), old(queue)[0].done)
      ensures durable == old(queue)[0].log && queue == old(queue)[1..]
      ensures var done := old(queue)[0].done;
              done.LeaderDone? ==>
                Committed(old(ballotBox.View()), done.first, done.last, serverId, old(ballotBox.lastCommittedIndex))
      ensures old(queue)[0].done.FollowerDone? ==>
                Learned(old(queue)[0].done, old(ballotBox.lastCommittedIndex), old(ballotBox.pendingIndex), sent)
    {
      hide Ballot.Valid, BallotBox.Valid, ConfOf, RunDone, LargestQuorum, Counts;
      var done := queue[0].done;
      assert Mem() == (if queue[1..] == [] then queue[0].log else queue[1..][|queue[1..]| - 1].log);
      durable, queue := queue[0].log, queue[1..];
      sent := RunClosure(done);
    }
  }

  /** `commit_at` does nothing to a box that is not in use, and keeps one in use that is. */
  lemma StaysPending(box: Box, first: nat, last: nat, peer: PeerId)
    ensures box.pending > 0 ==> BallotSpec.CommitAt(box, first, last, peer).box.pending > 0
    ensures box.pending == 0 ==> BallotSpec.CommitAt(box, first, last, peer) == CommitResult(box, 0)
  {
  }

  lemma NewConfHolds(initial: Config, log: Log, e: Entry)
    requires e.payload.Conf?
    ensures ConfOf(initial, log + [e]) == e.payload.conf
  {
  }

  lemma SteppedDown(nd: Node, term: nat)
    ensures NodeSpec.StepDown(nd, term).leader == None
  {
  }

  function Entries(values: seq<int>, term: nat): (r: Log)
    ensures |r| == |values| && forall i | 0 <= i < |r| :: r[i] == Entry(term, Data(values[i]))
  {
    seq(|values|, i requires 0 <= i < |values| => Entry(term, Data(values[i])))
  }

  function Fresh(conf: Config, n: nat): (r: seq<BallotState>)
    ensures |r| == n
  {
    seq(n, i => BallotState(conf, {}))
  }

  /** After the check the node follows somebody, in the term of the request, with its log untouched. */
  lemma CheckedDown(nd: Node, term: nat, server: PeerId)
    requires term >= nd.term
    ensures var r := NodeSpec.CheckStepDown(nd, term, server);
            && r.role == Follower && r.term == term && r.leader.Some? && r.Mem() == nd.Mem() && r.commit == nd.commit
  {
  }
}
