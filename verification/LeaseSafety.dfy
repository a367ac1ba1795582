/** Why a valid leader lease excludes another leader: leases over whole runs of a group with drifting clocks.

    The configuration is fixed and contains the leader. Steps happen at a global time that no node sees; each
    node reads its own clock. Terms may rise and votes may be asked for in any way; what matters is who may
    count a vote, and when. A lease is renewed in two steps: a thread reads that it is suspect, and renews it later,
    for whatever leadership there is by then. */
module LeaseSafety {
  import opened Types
  import opened Quorum
  import opened Leases

  /** `timeout` is the election timeout, `drift` the bound on the clock error over one timeout. */
  datatype Env = Env(conf: set<PeerId>, timeout: int, drift: int, clock: (PeerId, int) -> int)

  /** Clocks do not go back, and while less than a timeout passes on one node, less than a timeout and the drift
      passes on any other. */
  ghost predicate GoodClocks(env: Env) {
    && (forall p, x, y | x <= y :: env.clock(p, x) <= env.clock(p, y))
    && (forall p, q, x, y | x <= y && env.clock(p, y) - env.clock(p, x) < env.timeout ::
          env.clock(q, y) - env.clock(q, x) < env.timeout + env.drift)
  }

  /** `stamp` is the follower's last contact with a leader, none once its lease was reset or expired; `active` is
      the time the leader's lease counts from, none before the lease has started. */
  datatype LNode = LNode(term: nat, leading: bool, stamp: Option<int>, lastLeader: Option<PeerId>,
                         stamps: map<PeerId, int>, active: Option<int>)

  /** A leadership: who, and its clock when it began. */
  datatype Leadership = Leadership(leader: PeerId, start: int)

  datatype Msg =
    | Append(term: nat, leader: PeerId, stamp: int)
    | Ack(term: nat, from: PeerId, stamp: int, at: int)
    | VoteReq(term: nat, cand: PeerId)
    | Grant(term: nat, voter: PeerId, cand: PeerId)
    | SteppedDown(term: nat, leader: PeerId)

  /** A thread of `n` has read, while `n` led `term`, that the lease is suspect, and has not renewed it yet. */
  datatype Reading = Reading(n: PeerId, term: nat)

  datatype LState = LState(now: int, nodes: map<PeerId, LNode>, msgs: set<Msg>, leaders: map<nat, Leadership>,
                           readings: set<Reading>)

  datatype Step =
    | Tick(time: int)
    | Elect(n: PeerId, triggered: Option<Msg>)
    | ElectCrash(n: PeerId)
    | GrantSelf(n: PeerId)
    | VoteFor(n: PeerId, m: Msg)
    | Expire(n: PeerId, m: Msg)
    | Lead(n: PeerId)
    | Send(n: PeerId)
    | Receive(n: PeerId, m: Msg)
    | HearAck(n: PeerId, m: Msg)
    | StartLease(n: PeerId, t: int)
    | ReadSuspect(n: PeerId)
    | Renew(n: PeerId, r: Reading, t: int)
    | StepDown(n: PeerId, term: nat)
    | Restart(n: PeerId)

  ghost predicate Votable(env: Env, s: LState, n: PeerId)
    requires n in s.nodes
  {
    s.nodes[n].stamp.None? || env.clock(n, s.now) >= s.nodes[n].stamp.value + env.timeout + env.drift
  }

  /** The members of the configuration that granted their votes to `cand` in `term`. */
  function Voters(env: Env, s: LState, term: nat, cand: PeerId): set<PeerId> {
    set p | p in env.conf && Grant(term, p, cand) in s.msgs
  }

  /** The leader of `term` and the members that acknowledged one of its requests. */
  ghost function Heard(env: Env, s: LState, term: nat, leader: PeerId, since: int): set<PeerId> {
    set p | p in env.conf && (p == leader || exists a :: AckFrom(s, term, p, a) && a.stamp >= since)
  }

  ghost predicate AckFrom(s: LState, term: nat, p: PeerId, a: Msg) {
    a in s.msgs && a.Ack? && a.term == term && a.from == p
  }

  /** The state of the lease of `n` when it counts from `t`. */
  ghost function StateFrom(env: Env, s: LState, n: PeerId, t: int): LeaseState
    requires n in s.nodes
  {
    StateAt(LeaderView(env.timeout, t, s.nodes[n].term, 0), true, env.clock(n, s.now))
  }

  ghost predicate Enabled(env: Env, s: LState, step: Step) {
    match step
    case Tick(time) => time >= s.now
    case Elect(n, triggered) =>
      && n in s.nodes && !s.nodes[n].leading
      && (triggered.Some? ==>
            triggered.value in s.msgs && triggered.value.SteppedDown? && triggered.value.term == s.nodes[n].term)
    case ElectCrash(n) => n in s.nodes && !s.nodes[n].leading
    case GrantSelf(n) =>
      && n in s.nodes && !s.nodes[n].leading && VoteReq(s.nodes[n].term, n) in s.msgs
      && (Votable(env, s, n)
          || (s.nodes[n].lastLeader.Some? && Grant(s.nodes[n].term, s.nodes[n].lastLeader.value, n) in s.msgs))
    case VoteFor(n, m) =>
      n in s.nodes && m in s.msgs && m.VoteReq? && m.term >= s.nodes[n].term && Votable(env, s, n)
    case Expire(n, m) => n in s.nodes && m in s.msgs && m.SteppedDown? && m.term == s.nodes[n].term
    case Lead(n) =>
      && n in s.nodes && !s.nodes[n].leading && s.nodes[n].term !in s.leaders && n in env.conf
      && IsMajority(Voters(env, s, s.nodes[n].term, n), env.conf)
    case Send(n) => n in s.nodes && s.nodes[n].leading
    case Receive(n, m) => n in s.nodes && m in s.msgs && m.Append? && m.leader != n && m.term >= s.nodes[n].term
    case HearAck(n, m) =>
      n in s.nodes && s.nodes[n].leading && m in s.msgs && m.Ack? && m.term == s.nodes[n].term && m.from in env.conf
    case StartLease(n, t) =>
      // the lease starts when an entry of the term is applied, so a majority has acknowledged requests of the term
      && n in s.nodes && s.nodes[n].leading && s.nodes[n].term in s.leaders
      && IsMajority(Heard(env, s, s.nodes[n].term, n, s.leaders[s.nodes[n].term].start), env.conf)
      && Vouched(env.conf, n, s.nodes[n].stamps, env.clock(n, s.now), t)
    case ReadSuspect(n) =>
      n in s.nodes && s.nodes[n].leading && s.nodes[n].active.Some? && StateFrom(env, s, n, s.nodes[n].active.value) == Suspect
    case Renew(n, r, t) =>
      && n in s.nodes && s.nodes[n].leading && r in s.readings && r.n == n
      && Vouched(env.conf, n, s.nodes[n].stamps, env.clock(n, s.now), t)
    case StepDown(n, term) => n in s.nodes && term >= s.nodes[n].term
    case Restart(n) => n in s.nodes
  }

  /** What a leader that stops leading tells the group. */
  function Farewell(n: PeerId, nd: LNode): set<Msg> {
    if nd.leading then {SteppedDown(nd.term, n)} else {}
  }

  /** A node that starts again does not know what it promised, so it counts from now; one that has never left its first
      term has promised nothing. Its threads are gone. */
  ghost function Restarted(env: Env, s: LState, n: PeerId): LState
    requires n in s.nodes
  {
    var nd := s.nodes[n];
    s.(nodes := s.nodes[n := nd.(leading := false, lastLeader := None,
                                 stamp := if nd.term == 1 then None else Some(env.clock(n, s.now)))],
       readings := set r | r in s.readings && r.n != n)
  }

  ghost function Do(env: Env, s: LState, step: Step): LState
    requires Enabled(env, s, step)
  {
    match step
    case Tick(time) => s.(now := time)
    case Elect(n, triggered) =>
      var nd := s.nodes[n];
      var term := nd.term + 1;
      s.(nodes := s.nodes[n := nd.(term := term, stamp := if triggered.Some? then None else nd.stamp)],
         msgs := s.msgs + {VoteReq(term, n)})
    case ElectCrash(n) => // the requests go out before the term is stored; the node stops in between
      Restarted(env, s, n).(msgs := s.msgs + {VoteReq(s.nodes[n].term + 1, n)})
    case GrantSelf(n) => s.(msgs := s.msgs + {Grant(s.nodes[n].term, n, n)})
    case VoteFor(n, m) =>
      var nd := s.nodes[n];
      var steps := m.term > nd.term;
      s.(nodes := s.nodes[n := nd.(term := m.term, leading := nd.leading && !steps)],
         msgs := s.msgs + {Grant(m.term, n, m.cand)} + if steps then Farewell(n, nd) else {})
    case Expire(n, m) => s.(nodes := s.nodes[n := s.nodes[n].(stamp := None)])
    case Lead(n) =>
      var nd := s.nodes[n];
      var start := env.clock(n, s.now);
      s.(nodes := s.nodes[n := nd.(leading := true, stamp := None, active := None,
                                   stamps := map p | p in env.conf - {n} :: start)],
         leaders := s.leaders[nd.term := Leadership(n, start)])
    case Send(n) => s.(msgs := s.msgs + {Append(s.nodes[n].term, n, env.clock(n, s.now))})
    case Receive(n, m) =>
      var nd := s.nodes[n];
      s.(nodes := s.nodes[n := nd.(term := m.term, leading := false, stamp := Some(env.clock(n, s.now)),
                                   lastLeader := Some(m.leader))],
         msgs := s.msgs + {Ack(m.term, n, m.stamp, s.now)} + Farewell(n, nd))
    case HearAck(n, m) =>
      var nd := s.nodes[n];
      var newer := m.from !in nd.stamps || nd.stamps[m.from] < m.stamp;
      s.(nodes := s.nodes[n := nd.(stamps := if newer then nd.stamps[m.from := m.stamp] else nd.stamps)])
    case StartLease(n, t) => s.(nodes := s.nodes[n := s.nodes[n].(active := Some(t))])
    case ReadSuspect(n) => s.(readings := s.readings + {Reading(n, s.nodes[n].term)})
    case Renew(n, r, t) =>
      var nd, stays := s.nodes[n], StateFrom(env, s, n, t) == Valid;
      s.(nodes := s.nodes[n := nd.(active := Some(t), leading := stays)], readings := s.readings - {r},
         msgs := s.msgs + if stays then {} else Farewell(n, nd))
    case StepDown(n, term) =>
      var nd := s.nodes[n];
      s.(nodes := s.nodes[n := nd.(term := term, leading := false)], msgs := s.msgs + Farewell(n, nd))
    case Restart(n) => Restarted(env, s, n)
  }

  ghost predicate Init(env: Env, s: LState) {
    && s.msgs == {} && s.leaders == map[] && s.readings == {} && env.conf <= s.nodes.Keys
    && forall n | n in s.nodes :: !s.nodes[n].leading && s.nodes[n].term > 0
  }

  ghost predicate Next(env: Env, s: LState, t: LState) {
    exists step :: Enabled(env, s, step) && t == Do(env, s, step)
  }

  ghost predicate IsRun(env: Env, run: seq<LState>) {
    && run != [] && Init(env, run[0])
    && forall i | 0 <= i < |run| - 1 :: Next(env, run[i], run[i + 1])
  }

  /** No majority can form without the members heard of. */
  ghost predicate Holds(env: Env, heard: set<PeerId>) {
    !IsMajority(env.conf - heard, env.conf)
  }

  /** A renewal that makes the lease valid rests on acknowledgements without which no majority can form. */
  ghost predicate Timely(env: Env, s: LState, step: Step)
    requires Enabled(env, s, step)
  {
    step.Renew? && StateFrom(env, s, step.n, step.t) == Valid ==>
      Holds(env, Heard(env, s, s.nodes[step.n].term, step.n, step.t))
  }

  ghost predicate TimelyNext(env: Env, s: LState, t: LState) {
    exists step :: Enabled(env, s, step) && t == Do(env, s, step) && Timely(env, s, step)
  }

  ghost predicate IsTimely(env: Env, run: seq<LState>) {
    && run != [] && Init(env, run[0])
    && forall i | 0 <= i < |run| - 1 :: TimelyNext(env, run[i], run[i + 1])
  }

  /** A renewal happens in a leadership whose lease has started, or in the one that the reading was made in. */
  ghost predicate Fenced(env: Env, s: LState, step: Step)
    requires Enabled(env, s, step)
  {
    step.Renew? ==> s.nodes[step.n].active.Some? || step.r.term == s.nodes[step.n].term
  }

  ghost predicate FencedNext(env: Env, s: LState, t: LState) {
    exists step :: Enabled(env, s, step) && t == Do(env, s, step) && Fenced(env, s, step)
  }

  ghost predicate IsFenced(env: Env, run: seq<LState>) {
    && run != [] && Init(env, run[0])
    && forall i | 0 <= i < |run| - 1 :: FencedNext(env, run[i], run[i + 1])
  }

  /** The leader's lease is valid: its clock is within a timeout of the time it counts from. */
  ghost predicate LeaseValid(env: Env, s: LState, n: PeerId) {
    && n in s.nodes && s.nodes[n].leading && s.nodes[n].active.Some?
    && StateFrom(env, s, n, s.nodes[n].active.value) == Valid
  }

  // ---- the invariant

  /** The leader of `term` still leads it. */
  ghost predicate Live(s: LState, term: nat) {
    && term in s.leaders && s.leaders[term].leader in s.nodes
    && s.nodes[s.leaders[term].leader].leading && s.nodes[s.leaders[term].leader].term == term
  }

  ghost predicate ElectedAbove(s: LState, term: nat) {
    exists t :: t in s.leaders && t > term
  }

  ghost predicate VotedAbove(s: LState, term: nat, p: PeerId) {
    exists g :: g in s.msgs && g.Grant? && g.voter == p && g.term > term
  }

  /** The follower has not broken its promise to the leader of `term`: its lease covers every acknowledgement. */
  ghost predicate Bound(env: Env, s: LState, term: nat, p: PeerId)
    requires p in s.nodes
  {
    && !VotedAbove(s, term, p)
    && forall a {:trigger AckFrom(s, term, p, a)} | AckFrom(s, term, p, a) ::
         s.nodes[p].stamp.Some? && s.nodes[p].stamp.value >= env.clock(p, a.at)
  }

  /** The follower has moved on, and on the leader's clock everything it acknowledged is over. */
  ghost predicate Past(env: Env, s: LState, term: nat, p: PeerId)
    requires p in s.nodes && term in s.leaders
  {
    && s.nodes[p].term > term
    && forall a {:trigger AckFrom(s, term, p, a)} | AckFrom(s, term, p, a) ::
         env.clock(s.leaders[term].leader, s.now) >= a.stamp + env.timeout
  }

  ghost predicate PromiseOk(env: Env, s: LState, term: nat, p: PeerId)
    requires p in s.nodes && term in s.leaders
  {
    && (Bound(env, s, term, p) || Past(env, s, term, p) || ElectedAbove(s, term))
    && ((exists a :: AckFrom(s, term, p, a)) && !ElectedAbove(s, term) ==>
          s.nodes[p].lastLeader in {None, Some(s.leaders[term].leader)})
  }

  /** Once a later leader is elected, a majority is past the promises of this term. */
  ghost predicate OutvotedBy(env: Env, s: LState, term: nat, voters: set<PeerId>)
    requires term in s.leaders
  {
    IsMajority(voters, env.conf) && voters <= env.conf && voters <= s.nodes.Keys
    && forall q | q in voters :: q != s.leaders[term].leader && Past(env, s, term, q)
  }

  ghost predicate LeadershipOk(env: Env, s: LState, term: nat)
    requires term in s.leaders
  {
    var l := s.leaders[term].leader;
    && term > 1 && l in s.nodes && l in env.conf && s.nodes[l].term >= term && s.leaders[term].start <= env.clock(l, s.now)
    && IsMajority(Voters(env, s, term, l), env.conf)
    && (Live(s, term) ==>
          && (forall p {:trigger PromiseOk(env, s, term, p)} | p in s.nodes && p != l :: PromiseOk(env, s, term, p))
          && (ElectedAbove(s, term) ==> exists v :: OutvotedBy(env, s, term, v)))
  }

  ghost predicate MsgOk(env: Env, s: LState, m: Msg) {
    match m
    case Append(term, leader, stamp) =>
      term in s.leaders && s.leaders[term].leader == leader && s.leaders[term].start <= stamp <= env.clock(leader, s.now)
    case Ack(term, from, stamp, at) =>
      && term in s.leaders && from != s.leaders[term].leader && from in s.nodes && s.nodes[from].term >= term
      && at <= s.now && s.leaders[term].start <= stamp <= env.clock(s.leaders[term].leader, at)
    case VoteReq(term, _) => term > 1
    case Grant(term, voter, _) => term > 1 && voter in s.nodes && s.nodes[voter].term >= term
    case SteppedDown(term, leader) => term in s.leaders && s.leaders[term].leader == leader && !Live(s, term)
  }

  /** Every stamp is the start of the leadership or that of an acknowledgement. */
  ghost predicate StampsOk(env: Env, s: LState, n: PeerId)
    requires n in s.nodes && s.nodes[n].term in s.leaders
  {
    var nd := s.nodes[n];
    && env.conf - {n} <= nd.stamps.Keys
    && forall p | p in env.conf - {n} ::
         || nd.stamps[p] <= s.leaders[nd.term].start
         || exists a :: AckFrom(s, nd.term, p, a) && a.stamp >= nd.stamps[p]
  }

  ghost predicate LeaderOk(env: Env, s: LState, n: PeerId)
    requires n in s.nodes
  {
    s.nodes[n].leading ==>
      && s.nodes[n].term in s.leaders && s.leaders[s.nodes[n].term].leader == n
      && StampsOk(env, s, n)
      && (s.nodes[n].active.Some? ==>
            && Holds(env, Heard(env, s, s.nodes[n].term, n, s.nodes[n].active.value))
            && Holds(env, Heard(env, s, s.nodes[n].term, n, s.leaders[s.nodes[n].term].start)))
  }

  /** What was read was a lease that had started. */
  ghost predicate ReadingOk(s: LState, r: Reading) {
    && r.n in s.nodes && r.term in s.leaders
    && (s.nodes[r.n].leading && s.nodes[r.n].term == r.term ==> s.nodes[r.n].active.Some?)
  }

  ghost predicate Inv(env: Env, s: LState) {
    && env.conf <= s.nodes.Keys
    && (forall t {:trigger LeadershipOk(env, s, t)} | t in s.leaders :: LeadershipOk(env, s, t))
    && (forall m {:trigger MsgOk(env, s, m)} | m in s.msgs :: MsgOk(env, s, m))
    && (forall n {:trigger LeaderOk(env, s, n)} | n in s.nodes :: LeaderOk(env, s, n))
    && (forall r {:trigger ReadingOk(s, r)} | r in s.readings :: ReadingOk(s, r))
    && (forall n | n in s.nodes :: s.nodes[n].term > 0)
  }

  // ---- the theorem, from the invariant

  /** While the lease of `n` is valid no majority has voted in a later term. */
  lemma ValidLeaseExcludes(env: Env, s: LState, n: PeerId, voters: set<PeerId>)
    requires Inv(env, s) && LeaseValid(env, s, n) && IsMajority(voters, env.conf) && voters <= env.conf
    ensures !ElectedAbove(s, s.nodes[n].term)
    ensures !(forall q | q in voters :: VotedAbove(s, s.nodes[n].term, q))
  {
    var term := s.nodes[n].term;
    assert LeaderOk(env, s, n) && LeadershipOk(env, s, term);
    if ElectedAbove(s, term) {
      var v :| OutvotedBy(env, s, term, v);
      LeaseMeets(env, s, n, v);
    } else if forall q | q in voters :: VotedAbove(s, term, q) {
      forall q | q in voters
        ensures q != n && Past(env, s, term, q)
      {
        VoterIsPast(env, s, term, q);
      }
      LeaseMeets(env, s, n, voters);
    }
  }

  lemma VoterIsPast(env: Env, s: LState, term: nat, q: PeerId)
    requires Inv(env, s) && Live(s, term) && !ElectedAbove(s, term) && q in s.nodes && VotedAbove(s, term, q)
    ensures q != s.leaders[term].leader && Past(env, s, term, q)
  {
    var g :| g in s.msgs && g.Grant? && g.voter == q && g.term > term;
    assert MsgOk(env, s, g);
    assert LeadershipOk(env, s, term);
    assert PromiseOk(env, s, term, q);
  }

  /** A majority that is past the promises of a term leaves the lease no ground. */
  lemma LeaseMeets(env: Env, s: LState, n: PeerId, v: set<PeerId>)
    requires Inv(env, s) && n in s.nodes && s.nodes[n].leading && s.nodes[n].active.Some? && s.nodes[n].term in s.leaders
    requires OutvotedBy(env, s, s.nodes[n].term, v)
    ensures env.clock(n, s.now) >= s.nodes[n].active.value + env.timeout
  {
    assert LeaderOk(env, s, n);
    var term, since := s.nodes[n].term, s.nodes[n].active.value;
    var heard := Heard(env, s, term, n, since);
    var q := HoldsMeets(env, heard, v);
    var a :| AckFrom(s, term, q, a) && a.stamp >= since;
  }

  lemma HoldsMeets(env: Env, heard: set<PeerId>, v: set<PeerId>) returns (q: PeerId)
    requires Holds(env, heard) && IsMajority(v, env.conf) && v <= env.conf
    ensures q in heard && q in v
  {
    if v <= env.conf - heard {
      MajorityGrows(v, env.conf - heard, env.conf);
      assert false;
    }
    q :| q in v && q !in env.conf - heard;
  }

  lemma HoldsGrows(env: Env, a: set<PeerId>, b: set<PeerId>)
    requires Holds(env, a) && a <= b
    ensures Holds(env, b)
  {
    if !Holds(env, b) {
      MajorityGrows(env.conf - b, env.conf - a, env.conf);
    }
  }

  lemma MajorityHolds(env: Env, heard: set<PeerId>)
    requires IsMajority(heard, env.conf)
    ensures Holds(env, heard)
  {
    if !Holds(env, heard) {
      MajoritiesMeet(heard, env.conf, env.conf - heard, env.conf);
      assert false;
    }
  }

  // ---- what every step keeps

  /** How any step may change the group. */
  ghost predicate Evolves(s: LState, t: LState) {
    && s.now <= t.now && t.nodes.Keys == s.nodes.Keys && s.msgs <= t.msgs
    && (forall u | u in s.leaders :: u in t.leaders && t.leaders[u] == s.leaders[u])
    && (forall n | n in s.nodes :: s.nodes[n].term <= t.nodes[n].term)
    && (forall n | n in s.nodes && t.nodes[n].leading && t.nodes[n].term in s.leaders ::
          && s.nodes[n].leading && s.nodes[n].term == t.nodes[n].term
          && (s.nodes[n].active.Some? ==> t.nodes[n].active.Some?))
    && (forall a | a in t.msgs && a.Ack? && a !in s.msgs :: a.from in s.nodes && s.nodes[a.from].term <= a.term)
  }

  /** Nothing new about what `p` promised to the leader of `term`. */
  ghost predicate SamePromises(s: LState, t: LState, term: nat, p: PeerId)
    requires p in s.nodes && p in t.nodes
  {
    && (forall a {:trigger AckFrom(t, term, p, a)} | AckFrom(t, term, p, a) :: AckFrom(s, term, p, a))
    && (VotedAbove(t, term, p) ==> VotedAbove(s, term, p))
    && (s.nodes[p].stamp.Some? ==> t.nodes[p].stamp.Some? && t.nodes[p].stamp.value >= s.nodes[p].stamp.value)
    && t.nodes[p].lastLeader in {None, s.nodes[p].lastLeader}
  }

  lemma MsgKept(env: Env, s: LState, t: LState, m: Msg)
    requires GoodClocks(env) && Evolves(s, t) && MsgOk(env, s, m)
    ensures MsgOk(env, t, m)
  {
  }

  lemma PastKept(env: Env, s: LState, t: LState, term: nat, q: PeerId)
    requires GoodClocks(env) && Evolves(s, t) && term in s.leaders && q in s.nodes && Past(env, s, term, q)
    ensures Past(env, t, term, q)
  {
    forall a | AckFrom(t, term, q, a)
      ensures env.clock(t.leaders[term].leader, t.now) >= a.stamp + env.timeout
    {
      assert AckFrom(s, term, q, a);
    }
  }

  lemma PromiseKept(env: Env, s: LState, t: LState, term: nat, p: PeerId)
    requires GoodClocks(env) && Evolves(s, t) && term in s.leaders && p in s.nodes
    requires PromiseOk(env, s, term, p) && SamePromises(s, t, term, p)
    ensures PromiseOk(env, t, term, p)
  {
    if Past(env, s, term, p) {
      PastKept(env, s, t, term, p);
    } else if Bound(env, s, term, p) {
      forall a | AckFrom(t, term, p, a)
        ensures t.nodes[p].stamp.Some? && t.nodes[p].stamp.value >= env.clock(p, a.at)
      {
        assert AckFrom(s, term, p, a);
      }
    }
  }

  lemma OutvotedKept(env: Env, s: LState, t: LState, term: nat, v: set<PeerId>)
    requires GoodClocks(env) && Evolves(s, t) && term in s.leaders && OutvotedBy(env, s, term, v)
    ensures OutvotedBy(env, t, term, v)
  {
    forall q | q in v
      ensures Past(env, t, term, q)
    {
      PastKept(env, s, t, term, q);
    }
  }

  lemma MajorityGrows(a: set<PeerId>, b: set<PeerId>, peers: set<PeerId>)
    requires IsMajority(a, peers) && a <= b
    ensures IsMajority(b, peers)
  {
    SubsetCardinality(a * peers, b * peers);
  }

  /** A leadership stays in order when its promises do. */
  lemma LeadershipKept(env: Env, s: LState, t: LState, term: nat)
    requires GoodClocks(env) && Inv(env, s) && Evolves(s, t) && term in s.leaders
    requires Live(t, term) ==>
               forall p {:trigger PromiseOk(env, t, term, p)} | p in t.nodes && p != t.leaders[term].leader :: PromiseOk(env, t, term, p)
    requires Live(t, term) && ElectedAbove(t, term) ==>
               ElectedAbove(s, term) || exists v :: OutvotedBy(env, t, term, v)
    ensures LeadershipOk(env, t, term)
  {
    assert LeadershipOk(env, s, term);
    var l := s.leaders[term].leader;
    MajorityGrows(Voters(env, s, term, l), Voters(env, t, term, l), env.conf);
    if Live(t, term) && ElectedAbove(s, term) {
      var v :| OutvotedBy(env, s, term, v);
      OutvotedKept(env, s, t, term, v);
    }
  }

  lemma HeardGrows(env: Env, s: LState, t: LState, term: nat, n: PeerId, since: int)
    requires s.msgs <= t.msgs && Holds(env, Heard(env, s, term, n, since))
    ensures Holds(env, Heard(env, t, term, n, since))
  {
    forall p | p in Heard(env, s, term, n, since)
      ensures p in Heard(env, t, term, n, since)
    {
      if p != n {
        var a :| AckFrom(s, term, p, a) && a.stamp >= since;
        assert AckFrom(t, term, p, a);
      }
    }
    HoldsGrows(env, Heard(env, s, term, n, since), Heard(env, t, term, n, since));
  }

  lemma ReadingKept(s: LState, t: LState, r: Reading)
    requires Evolves(s, t) && ReadingOk(s, r)
    ensures ReadingOk(t, r)
  {
  }

  /** A leader that did not change stays in order. */
  lemma LeaderKept(env: Env, s: LState, t: LState, n: PeerId)
    requires Evolves(s, t) && n in s.nodes && LeaderOk(env, s, n)
    requires t.nodes[n].leading ==>
               && s.nodes[n].leading && t.nodes[n].term == s.nodes[n].term
               && t.nodes[n].stamps == s.nodes[n].stamps && t.nodes[n].active == s.nodes[n].active
    ensures LeaderOk(env, t, n)
  {
    if t.nodes[n].leading {
      var nd := s.nodes[n];
      forall p | p in env.conf - {n} && nd.stamps[p] > s.leaders[nd.term].start
        ensures exists a :: AckFrom(t, nd.term, p, a) && a.stamp >= nd.stamps[p]
      {
        var a :| AckFrom(s, nd.term, p, a) && a.stamp >= nd.stamps[p];
        assert AckFrom(t, nd.term, p, a);
      }
      if nd.active.Some? {
        HeardGrows(env, s, t, nd.term, n, nd.active.value);
        HeardGrows(env, s, t, nd.term, n, s.leaders[nd.term].start);
      }
    }
  }

  /** A step that elects nobody: what is left to show is about the node that takes it. */
  lemma StepKeeps(env: Env, s: LState, t: LState, n: PeerId)
    requires GoodClocks(env) && Inv(env, s) && Evolves(s, t) && n in s.nodes && t.leaders == s.leaders
    requires forall m | m in s.nodes && m != n :: t.nodes[m] == s.nodes[m]
    requires forall m | m in t.msgs && m !in s.msgs :: (m.Ack? ==> m.from == n) && (m.Grant? ==> m.voter == n)
    requires forall m | m in t.msgs && m !in s.msgs :: MsgOk(env, t, m)
    requires LeaderOk(env, t, n)
    requires forall r | r in t.readings && r !in s.readings :: ReadingOk(t, r)
    requires forall u {:trigger LeadershipOk(env, s, u)} | u in s.leaders && Live(t, u) && n != s.leaders[u].leader :: PromiseOk(env, t, u, n)
    ensures Inv(env, t)
  {
    forall u | u in t.leaders
      ensures LeadershipOk(env, t, u)
    {
      assert LeadershipOk(env, s, u);
      if Live(t, u) {
        forall p | p in t.nodes && p != t.leaders[u].leader
          ensures PromiseOk(env, t, u, p)
        {
          if p != n {
            assert PromiseOk(env, s, u, p);
            OthersPromises(s, t, u, p, n);
            PromiseKept(env, s, t, u, p);
          }
        }
      }
      LeadershipKept(env, s, t, u);
    }
    forall m | m in t.msgs
      ensures MsgOk(env, t, m)
    {
      if m in s.msgs {
        MsgKept(env, s, t, m);
      }
    }
    forall m | m in t.nodes
      ensures LeaderOk(env, t, m)
    {
      if m != n {
        assert LeaderOk(env, s, m);
        LeaderKept(env, s, t, m);
      }
    }
    forall r | r in t.readings
      ensures ReadingOk(t, r)
    {
      if r in s.readings {
        ReadingKept(s, t, r);
      }
    }
  }

  lemma OthersPromises(s: LState, t: LState, term: nat, p: PeerId, n: PeerId)
    requires p in s.nodes && p in t.nodes && p != n && t.nodes[p] == s.nodes[p]
    requires forall m | m in t.msgs && m !in s.msgs :: (m.Ack? ==> m.from == n) && (m.Grant? ==> m.voter == n)
    ensures SamePromises(s, t, term, p)
  {
    if VotedAbove(t, term, p) {
      var g :| g in t.msgs && g.Grant? && g.voter == p && g.term > term;
      assert g in s.msgs;
    }
  }

  // ---- the steps

  /** Without an acknowledgement there is nothing to break. */
  lemma NothingPromised(env: Env, s: LState, t: LState, term: nat, p: PeerId)
    requires p in t.nodes && term in t.leaders && !(exists a :: AckFrom(t, term, p, a))
    requires forall g | g in t.msgs && g.Grant? && g.voter == p :: g.term <= t.nodes[p].term
    ensures PromiseOk(env, t, term, p)
  {
  }

  lemma GrantsBelow(env: Env, s: LState, p: PeerId)
    requires Inv(env, s)
    ensures forall g | g in s.msgs && g.Grant? && g.voter == p :: p in s.nodes && g.term <= s.nodes[p].term
  {
    forall g | g in s.msgs && g.Grant? && g.voter == p
      ensures p in s.nodes && g.term <= s.nodes[p].term
    {
      assert MsgOk(env, s, g);
    }
  }

  lemma TickKeeps(env: Env, s: LState, time: int)
    requires GoodClocks(env) && Inv(env, s) && time >= s.now
    ensures Inv(env, Do(env, s, Tick(time)))
  {
    var t := Do(env, s, Tick(time));
    if n :| n in s.nodes {
      assert LeaderOk(env, s, n);
      LeaderKept(env, s, t, n);
      forall u | u in s.leaders && Live(t, u) && n != s.leaders[u].leader
        ensures PromiseOk(env, t, u, n)
      {
        assert LeadershipOk(env, s, u) && PromiseOk(env, s, u, n);
        PromiseKept(env, s, t, u, n);
      }
      StepKeeps(env, s, t, n);
    } else {
      assert forall u | u in s.leaders :: LeadershipOk(env, s, u);
      assert forall m | m in s.msgs :: MsgOk(env, s, m);
      assert forall r | r in s.readings :: ReadingOk(s, r);
    }
  }

  /** A leader that has stepped down frees its followers: nobody else they acknowledged still leads. */
  lemma FreedPromise(env: Env, s: LState, t: LState, u: nat, n: PeerId, m: Msg)
    requires Inv(env, s) && Evolves(s, t) && t.leaders == s.leaders && n in s.nodes && u in s.leaders
    requires Live(t, u) && n != s.leaders[u].leader
    requires m in s.msgs && m.SteppedDown? && m.term == s.nodes[n].term
    requires forall a | a in t.msgs && a.Ack? :: a in s.msgs
    requires forall g | g in t.msgs && g.Grant? :: g in s.msgs
    ensures PromiseOk(env, t, u, n)
  {
    assert MsgOk(env, s, m);
    if a :| AckFrom(t, u, n, a) {
      assert MsgOk(env, s, a);
      assert m.term > u;
    } else {
      GrantsBelow(env, s, n);
      NothingPromised(env, s, t, u, n);
    }
  }

  lemma SamePromise(env: Env, s: LState, t: LState, u: nat, n: PeerId)
    requires GoodClocks(env) && Inv(env, s) && Evolves(s, t) && n in s.nodes && u in s.leaders
    requires Live(t, u) && n != s.leaders[u].leader && SamePromises(s, t, u, n)
    ensures PromiseOk(env, t, u, n)
  {
    assert LeadershipOk(env, s, u) && PromiseOk(env, s, u, n);
    PromiseKept(env, s, t, u, n);
  }

  lemma ElectKeeps(env: Env, s: LState, step: Step)
    requires GoodClocks(env) && Inv(env, s) && Enabled(env, s, step) && (step.Elect? || step.Expire?)
    ensures Inv(env, Do(env, s, step))
  {
    var n, t := step.n, Do(env, s, step);
    assert LeaderOk(env, s, n);
    assert Evolves(s, t);
    LeaderKept(env, s, t, n);
    forall u | u in s.leaders && Live(t, u) && n != s.leaders[u].leader
      ensures PromiseOk(env, t, u, n)
    {
      if step.Elect? && step.triggered.None? {
        NoNewVotes(s, t, u, n);
        SamePromise(env, s, t, u, n);
      } else {
        FreedPromise(env, s, t, u, n, if step.Elect? then step.triggered.value else step.m);
      }
    }
    StepKeeps(env, s, t, n);
  }

  lemma NoNewVotes(s: LState, t: LState, u: nat, n: PeerId)
    requires forall g | g in t.msgs && g.Grant? :: g in s.msgs
    ensures VotedAbove(t, u, n) ==> VotedAbove(s, u, n)
  {
  }

  /** Who counts a vote is past its promises, or the leader it made them to is gone. */
  lemma VotePromise(env: Env, s: LState, t: LState, u: nat, n: PeerId)
    requires GoodClocks(env) && Inv(env, s) && Evolves(s, t) && t.leaders == s.leaders && t.now == s.now
    requires n in s.nodes && u in s.leaders && Live(t, u) && n != s.leaders[u].leader
    requires t.nodes[n].stamp == s.nodes[n].stamp && t.nodes[n].lastLeader == s.nodes[n].lastLeader
    requires Votable(env, s, n)
             || (t.nodes[n].term == s.nodes[n].term && s.nodes[n].lastLeader.Some?
                 && Grant(s.nodes[n].term, s.nodes[n].lastLeader.value, n) in s.msgs)
    requires forall a | a in t.msgs && a.Ack? :: a in s.msgs
    requires forall g | g in t.msgs && g.Grant? && g.voter == n :: g.term <= t.nodes[n].term
    ensures PromiseOk(env, t, u, n)
  {
    assert LeadershipOk(env, s, u) && PromiseOk(env, s, u, n);
    var l := s.leaders[u].leader;
    if !(exists a :: AckFrom(t, u, n, a)) {
      NothingPromised(env, s, t, u, n);
    } else if ElectedAbove(s, u) {
    } else {
      var a :| AckFrom(t, u, n, a);
      assert AckFrom(s, u, n, a);
      if Past(env, s, u, n) {
        PastKept(env, s, t, u, n);
      } else {
        if !Votable(env, s, n) {
          // the leader itself voted for this node, so the node is still in the leader's term
          LastLeaderGone(env, s, u, n);
        }
        OverOrBound(env, s, t, u, n);
      }
    }
  }

  lemma OverOrBound(env: Env, s: LState, t: LState, u: nat, n: PeerId)
    requires GoodClocks(env) && Inv(env, s) && t.leaders == s.leaders && t.now == s.now && n in s.nodes && n in t.nodes
    requires u in s.leaders && Bound(env, s, u, n) && t.nodes[n].stamp == s.nodes[n].stamp
    requires Votable(env, s, n) || t.nodes[n].term == u
    requires forall a | a in t.msgs && a.Ack? :: a in s.msgs
    requires forall g | g in t.msgs && g.Grant? && g.voter == n :: g.term <= t.nodes[n].term
    ensures Bound(env, t, u, n) || Past(env, t, u, n)
  {
    forall a | AckFrom(t, u, n, a)
      ensures t.nodes[n].stamp.Some? && t.nodes[n].stamp.value >= env.clock(n, a.at)
      ensures Votable(env, s, n) ==> env.clock(s.leaders[u].leader, t.now) >= a.stamp + env.timeout
    {
      assert AckFrom(s, u, n, a) && MsgOk(env, s, a);
      if Votable(env, s, n) {
        assert env.clock(n, s.now) - env.clock(n, a.at) >= env.timeout + env.drift;
      }
    }
  }

  lemma LastLeaderGone(env: Env, s: LState, u: nat, n: PeerId)
    requires Inv(env, s) && n in s.nodes && Live(s, u) && n != s.leaders[u].leader && !ElectedAbove(s, u)
    requires exists a :: AckFrom(s, u, n, a)
    requires s.nodes[n].lastLeader.Some? && Grant(s.nodes[n].term, s.nodes[n].lastLeader.value, n) in s.msgs
    ensures s.nodes[n].term == u
  {
    var g := Grant(s.nodes[n].term, s.nodes[n].lastLeader.value, n);
    assert LeadershipOk(env, s, u) && PromiseOk(env, s, u, n);
    assert MsgOk(env, s, g);
    var a :| AckFrom(s, u, n, a);
    assert MsgOk(env, s, a);
  }

  lemma VoteKeeps(env: Env, s: LState, step: Step)
    requires GoodClocks(env) && Inv(env, s) && Enabled(env, s, step) && (step.GrantSelf? || step.VoteFor?)
    ensures Inv(env, Do(env, s, step))
  {
    var n, t := step.n, Do(env, s, step);
    assert LeaderOk(env, s, n);
    assert Evolves(s, t);
    LeaderKept(env, s, t, n);
    GrantsBelow(env, s, n);
    FarewellOk(env, s, t, n);
    assert MsgOk(env, s, if step.VoteFor? then step.m else VoteReq(s.nodes[n].term, n));
    forall u | u in s.leaders && Live(t, u) && n != s.leaders[u].leader
      ensures PromiseOk(env, t, u, n)
    {
      VotePromise(env, s, t, u, n);
    }
    StepKeeps(env, s, t, n);
  }

  /** A leader that stops leading says so truthfully. */
  lemma FarewellOk(env: Env, s: LState, t: LState, n: PeerId)
    requires Inv(env, s) && n in s.nodes && n in t.nodes && t.leaders == s.leaders
    ensures s.nodes[n].leading && !t.nodes[n].leading ==> MsgOk(env, t, SteppedDown(s.nodes[n].term, n))
  {
    assert LeaderOk(env, s, n);
  }

  lemma ReceiveKeeps(env: Env, s: LState, step: Step)
    requires GoodClocks(env) && Inv(env, s) && Enabled(env, s, step) && step.Receive?
    ensures Inv(env, Do(env, s, step))
  {
    var n, m, t := step.n, step.m, Do(env, s, step);
    assert MsgOk(env, s, m);
    assert Evolves(s, t);
    FarewellOk(env, s, t, n);
    forall u | u in s.leaders && Live(t, u) && n != s.leaders[u].leader
      ensures PromiseOk(env, t, u, n)
    {
      ReceivePromise(env, s, m, u, n);
    }
    StepKeeps(env, s, t, n);
  }

  lemma ReceivePromise(env: Env, s: LState, m: Msg, u: nat, n: PeerId)
    requires GoodClocks(env) && Inv(env, s) && Enabled(env, s, Receive(n, m))
    requires u in s.leaders && Live(Do(env, s, Receive(n, m)), u) && n != s.leaders[u].leader
    ensures PromiseOk(env, Do(env, s, Receive(n, m)), u, n)
  {
    var t := Do(env, s, Receive(n, m));
    assert MsgOk(env, s, m) && LeadershipOk(env, s, u) && PromiseOk(env, s, u, n);
    GrantsBelow(env, s, n);
    if m.term < u {
      forall a | AckFrom(t, u, n, a)
        ensures AckFrom(s, u, n, a) && MsgOk(env, s, a)
      {
      }
      NothingPromised(env, s, t, u, n);
    } else if m.term == u {
      forall a | AckFrom(t, u, n, a)
        ensures env.clock(n, s.now) >= env.clock(n, a.at)
      {
        if a in s.msgs {
          assert MsgOk(env, s, a);
        }
      }
      NoNewVotes(s, t, u, n);
    }
  }

  lemma QuietKeeps(env: Env, s: LState, step: Step)
    requires GoodClocks(env) && Inv(env, s) && Enabled(env, s, step)
    requires step.Send? || step.StepDown? || step.Restart? || step.ElectCrash?
    ensures Inv(env, Do(env, s, step))
  {
    var n, t := step.n, Do(env, s, step);
    assert LeaderOk(env, s, n);
    assert Evolves(s, t);
    if step.Send? {
      assert LeadershipOk(env, s, s.nodes[n].term);
    }
    hide Inv, GoodClocks, LeaderOk, LeadershipOk;
    LeaderKept(env, s, t, n);
    FarewellOk(env, s, t, n);
    forall u | u in s.leaders && Live(t, u) && n != s.leaders[u].leader
      ensures PromiseOk(env, t, u, n)
    {
      NoNewVotes(s, t, u, n);
      if step.Restart? || step.ElectCrash? {
        RestartPromise(env, s, t, u, n);
      } else {
        SamePromise(env, s, t, u, n);
      }
    }
    LeaderFacts(env, s, n);
    StepKeeps(env, s, t, n);
  }

  lemma RestartPromise(env: Env, s: LState, t: LState, u: nat, n: PeerId)
    requires GoodClocks(env) && Inv(env, s) && Evolves(s, t) && n in s.nodes && u in s.leaders && t.leaders == s.leaders
    requires t.nodes == Restarted(env, s, n).nodes && t.now == s.now && Live(t, u) && n != s.leaders[u].leader
    requires forall a | a in t.msgs && (a.Ack? || a.Grant?) :: a in s.msgs
    ensures PromiseOk(env, t, u, n)
  {
    assert LeadershipOk(env, s, u) && PromiseOk(env, s, u, n);
    NoNewVotes(s, t, u, n);
    forall a | AckFrom(t, u, n, a)
      ensures AckFrom(s, u, n, a) && s.nodes[n].term > 1 && env.clock(n, s.now) >= env.clock(n, a.at)
    {
      assert MsgOk(env, s, a);
    }
    if Past(env, s, u, n) {
      PastKept(env, s, t, u, n);
    }
  }

  /** Steps of a leader that change only what it has heard, read or counts from, or make it stop. */
  lemma LeaderStepKeeps(env: Env, s: LState, t: LState, n: PeerId)
    requires GoodClocks(env) && Inv(env, s) && Evolves(s, t) && n in s.nodes && t.leaders == s.leaders
    requires forall m | m in s.nodes && m != n :: t.nodes[m] == s.nodes[m]
    requires t.nodes[n].stamp == s.nodes[n].stamp && t.nodes[n].lastLeader == s.nodes[n].lastLeader
    requires t.msgs <= s.msgs + Farewell(n, s.nodes[n]) && (t.msgs == s.msgs || !t.nodes[n].leading)
    requires LeaderOk(env, t, n) && forall r | r in t.readings && r !in s.readings :: ReadingOk(t, r)
    ensures Inv(env, t)
  {
    hide Inv, LeaderOk, GoodClocks;
    FarewellOk(env, s, t, n);
    forall u | u in s.leaders && Live(t, u) && n != s.leaders[u].leader
      ensures PromiseOk(env, t, u, n)
    {
      NoNewVotes(s, t, u, n);
      SamePromise(env, s, t, u, n);
    }
    StepKeeps(env, s, t, n);
  }

  lemma LeaderFacts(env: Env, s: LState, n: PeerId)
    requires Inv(env, s) && n in s.nodes
    ensures LeaderOk(env, s, n) && s.nodes[n].term > 0 && (s.nodes[n].leading ==> s.nodes[n].term in s.leaders)
  {
    assert LeaderOk(env, s, n);
  }

  lemma HearKeeps(env: Env, s: LState, step: Step)
    requires GoodClocks(env) && Inv(env, s) && Enabled(env, s, step) && step.HearAck?
    ensures Inv(env, Do(env, s, step))
  {
    hide Inv, GoodClocks, Vouched, IsMajority, Heard, Timely;
    var n, t := step.n, Do(env, s, step);
    LeaderFacts(env, s, n);
    hide LeaderOk;
    assert Evolves(s, t);
    HeardLeader(env, s, n, step.m);
    LeaderStepKeeps(env, s, t, n);
  }

  lemma StartKeeps(env: Env, s: LState, step: Step)
    requires GoodClocks(env) && Inv(env, s) && Enabled(env, s, step) && step.StartLease?
    ensures Inv(env, Do(env, s, step))
  {
    hide Inv, GoodClocks, Vouched, IsMajority, Heard, Timely;
    var n, t := step.n, Do(env, s, step);
    LeaderFacts(env, s, n);
    hide LeaderOk;
    assert Evolves(s, t);
    StartedLeader(env, s, n, step.t);
    LeaderStepKeeps(env, s, t, n);
  }

  lemma RenewKeeps(env: Env, s: LState, step: Step)
    requires GoodClocks(env) && Inv(env, s) && Enabled(env, s, step) && step.Renew? && Timely(env, s, step)
    ensures Inv(env, Do(env, s, step))
  {
    hide Inv, GoodClocks, Vouched, IsMajority, Heard, Timely;
    var n, t := step.n, Do(env, s, step);
    LeaderFacts(env, s, n);
    hide LeaderOk;
    assert Evolves(s, t);
    RenewedLeader(env, s, step);
    LeaderStepKeeps(env, s, t, n);
  }

  lemma ReadKeeps(env: Env, s: LState, step: Step)
    requires GoodClocks(env) && Inv(env, s) && Enabled(env, s, step) && step.ReadSuspect?
    ensures Inv(env, Do(env, s, step))
  {
    hide Inv, GoodClocks, Vouched, IsMajority, Heard, Timely;
    var n, t := step.n, Do(env, s, step);
    LeaderFacts(env, s, n);
    hide LeaderOk;
    assert Evolves(s, t);
    LeaderKept(env, s, t, n);
    LeaderStepKeeps(env, s, t, n);
  }

  lemma HeardLeader(env: Env, s: LState, n: PeerId, m: Msg)
    requires Inv(env, s) && Enabled(env, s, HearAck(n, m))
    ensures LeaderOk(env, Do(env, s, HearAck(n, m)), n)
  {
    var t := Do(env, s, HearAck(n, m));
    assert LeaderOk(env, s, n);
    var nd := t.nodes[n];
    forall p | p in env.conf - {n} && nd.stamps[p] > t.leaders[nd.term].start
      ensures exists a :: AckFrom(t, nd.term, p, a) && a.stamp >= nd.stamps[p]
    {
      if p == m.from && nd.stamps[p] == m.stamp {
        assert AckFrom(t, nd.term, p, m);
      } else {
        var a :| AckFrom(s, nd.term, p, a) && a.stamp >= nd.stamps[p];
        assert AckFrom(t, nd.term, p, a);
      }
    }
    if nd.active.Some? {
      HeardGrows(env, s, t, nd.term, n, nd.active.value);
      HeardGrows(env, s, t, nd.term, n, s.leaders[nd.term].start);
    }
  }

  /** The time that the stamps vouch for, once enough members have acknowledged anything of the leadership: since then
      enough have acknowledged, although the stamps start with the leadership and not with an acknowledgement. */
  lemma VouchedHolds(env: Env, s: LState, n: PeerId, since: int)
    requires Inv(env, s) && n in s.nodes && s.nodes[n].leading && s.nodes[n].term in s.leaders
    requires Vouched(env.conf, n, s.nodes[n].stamps, env.clock(n, s.now), since)
    requires Holds(env, Heard(env, s, s.nodes[n].term, n, s.leaders[s.nodes[n].term].start))
    ensures Holds(env, Heard(env, s, s.nodes[n].term, n, since))
  {
    assert LeaderOk(env, s, n);
    var nd := s.nodes[n];
    assert LeadershipOk(env, s, nd.term);
    var heard, start := Heard(env, s, nd.term, n, since), s.leaders[nd.term].start;
    if since > start {
      VouchedByMajority(env.conf, n, nd.stamps, env.clock(n, s.now), since);
      var vouched := HeardSince(env.conf, n, nd.stamps, since);
      forall p | p in vouched
        ensures p in heard
      {
        if p != n {
          var a :| AckFrom(s, nd.term, p, a) && a.stamp >= nd.stamps[p];
        }
      }
      MajorityGrows(vouched, heard, env.conf);
      MajorityHolds(env, heard);
    } else {
      HoldsGrows(env, Heard(env, s, nd.term, n, start), heard);
    }
  }

  /** A leader whose lease counts from a time since when enough members have acknowledged. */
  lemma CountedLeader(env: Env, s: LState, t: LState, n: PeerId, since: int)
    requires Inv(env, s) && Evolves(s, t) && n in s.nodes && s.nodes[n].leading && t.leaders == s.leaders
    requires s.nodes[n].term in s.leaders && t.nodes[n] == s.nodes[n].(active := Some(since))
    requires Holds(env, Heard(env, s, s.nodes[n].term, n, since))
    requires Holds(env, Heard(env, s, s.nodes[n].term, n, s.leaders[s.nodes[n].term].start))
    ensures LeaderOk(env, t, n)
  {
    assert LeaderOk(env, s, n);
    var nd := s.nodes[n];
    HeardGrows(env, s, t, nd.term, n, since);
    HeardGrows(env, s, t, nd.term, n, s.leaders[nd.term].start);
    forall p | p in env.conf - {n} && nd.stamps[p] > s.leaders[nd.term].start
      ensures exists a :: AckFrom(t, nd.term, p, a) && a.stamp >= nd.stamps[p]
    {
      var a :| AckFrom(s, nd.term, p, a) && a.stamp >= nd.stamps[p];
      assert AckFrom(t, nd.term, p, a);
    }
  }

  lemma StartedLeader(env: Env, s: LState, n: PeerId, since: int)
    requires Inv(env, s) && Enabled(env, s, StartLease(n, since)) && Evolves(s, Do(env, s, StartLease(n, since)))
    ensures LeaderOk(env, Do(env, s, StartLease(n, since)), n)
  {
    MajorityHolds(env, Heard(env, s, s.nodes[n].term, n, s.leaders[s.nodes[n].term].start));
    VouchedHolds(env, s, n, since);
    CountedLeader(env, s, Do(env, s, StartLease(n, since)), n, since);
  }

  lemma RenewedLeader(env: Env, s: LState, step: Step)
    requires Inv(env, s) && Enabled(env, s, step) && step.Renew? && Timely(env, s, step) && Evolves(s, Do(env, s, step))
    ensures LeaderOk(env, Do(env, s, step), step.n)
  {
    var n, since := step.n, step.t;
    assert LeaderOk(env, s, n);
    var term := s.nodes[n].term;
    if StateFrom(env, s, n, since) == Valid {
      HeardFromStart(env, s, term, n, since);
      CountedLeader(env, s, Do(env, s, step), n, since);
    }
  }

  /** Every acknowledgement of a term is one of the leadership. */
  lemma HeardFromStart(env: Env, s: LState, term: nat, n: PeerId, since: int)
    requires Inv(env, s) && term in s.leaders && Holds(env, Heard(env, s, term, n, since))
    ensures Holds(env, Heard(env, s, term, n, s.leaders[term].start))
  {
    forall p | p in Heard(env, s, term, n, since)
      ensures p in Heard(env, s, term, n, s.leaders[term].start)
    {
      if p != n {
        var a :| AckFrom(s, term, p, a) && a.stamp >= since;
        assert MsgOk(env, s, a);
      }
    }
    HoldsGrows(env, Heard(env, s, term, n, since), Heard(env, s, term, n, s.leaders[term].start));
  }

  /** A renewal for a leadership whose lease has started, which it has when the reading was made in it, is timely. */
  lemma FencedIsTimely(env: Env, s: LState, step: Step)
    requires Inv(env, s) && Enabled(env, s, step) && Fenced(env, s, step)
    ensures Timely(env, s, step)
  {
    if step.Renew? {
      assert LeaderOk(env, s, step.n) && ReadingOk(s, step.r);
      VouchedHolds(env, s, step.n, step.t);
    }
  }

  // ---- an election

  /** Nobody has acknowledged anything in a term that had no leader. */
  lemma FreshTerm(env: Env, s: LState, term: nat, p: PeerId)
    requires Inv(env, s) && term !in s.leaders
    ensures forall a :: !AckFrom(s, term, p, a)
  {
    forall a | a in s.msgs && a.Ack?
      ensures a.term != term
    {
      assert MsgOk(env, s, a);
    }
  }

  /** The earlier leaderships when `n` is elected: those below are outvoted by the voters of `n`. */
  lemma LeadKeepsOther(env: Env, s: LState, n: PeerId, u: nat)
    requires GoodClocks(env) && Inv(env, s) && Enabled(env, s, Lead(n)) && u in s.leaders
    requires Evolves(s, Do(env, s, Lead(n)))
    ensures LeadershipOk(env, Do(env, s, Lead(n)), u)
  {
    var t, term := Do(env, s, Lead(n)), s.nodes[n].term;
    var l := s.leaders[u].leader;
    assert LeadershipOk(env, s, u);
    if Live(t, u) {
      forall p | p in t.nodes && p != l
        ensures PromiseOk(env, t, u, p)
      {
        LeadPromise(env, s, n, u, p);
      }
      if ElectedAbove(t, u) && !ElectedAbove(s, u) {
        var v := Voters(env, s, term, n);
        forall q | q in v
          ensures q in s.nodes && q != l && Past(env, t, u, q)
        {
          assert MsgOk(env, s, Grant(term, q, n));
          VoterIsPast(env, s, u, q);
          PastKept(env, s, t, u, q);
        }
        assert OutvotedBy(env, t, u, v);
      }
    }
    LeadershipKept(env, s, t, u);
  }

  lemma LeadPromise(env: Env, s: LState, n: PeerId, u: nat, p: PeerId)
    requires GoodClocks(env) && Inv(env, s) && Enabled(env, s, Lead(n)) && u in s.leaders
    requires Evolves(s, Do(env, s, Lead(n))) && Live(Do(env, s, Lead(n)), u) && p in s.nodes && p != s.leaders[u].leader
    ensures PromiseOk(env, Do(env, s, Lead(n)), u, p)
  {
    var t, term := Do(env, s, Lead(n)), s.nodes[n].term;
    assert LeadershipOk(env, s, u) && PromiseOk(env, s, u, p);
    if p != n {
      OthersPromises(s, t, u, p, n);
      PromiseKept(env, s, t, u, p);
    } else if term > u {
      assert term in t.leaders;
    } else {
      GrantsBelow(env, s, n);
      forall a | AckFrom(t, u, n, a)
        ensures AckFrom(s, u, n, a) && MsgOk(env, s, a)
      {
      }
      NothingPromised(env, s, t, u, n);
    }
  }

  /** The new leadership: nothing was promised to it yet, and a later leader has its own majority behind it. */
  lemma LeadKeepsOwn(env: Env, s: LState, n: PeerId)
    requires GoodClocks(env) && Inv(env, s) && Enabled(env, s, Lead(n))
    ensures LeadershipOk(env, Do(env, s, Lead(n)), s.nodes[n].term)
  {
    var t, term := Do(env, s, Lead(n)), s.nodes[n].term;
    assert Voters(env, t, term, n) == Voters(env, s, term, n);
    var voter := SomeVoter(env, s, term, n);
    assert MsgOk(env, s, Grant(term, voter, n));
    forall p | p in t.nodes && p != n
      ensures PromiseOk(env, t, term, p)
    {
      FreshTerm(env, s, term, p);
      assert forall a :: AckFrom(t, term, p, a) ==> AckFrom(s, term, p, a);
      GrantsBelow(env, s, p);
      NothingPromised(env, s, t, term, p);
    }
    if w :| w in t.leaders && w > term {
      assert LeadershipOk(env, s, w);
      var v := Voters(env, s, w, s.leaders[w].leader);
      forall q | q in v
        ensures q in s.nodes && q != n && Past(env, t, term, q)
      {
        assert MsgOk(env, s, Grant(w, q, s.leaders[w].leader));
        FreshTerm(env, s, term, q);
        assert forall a :: AckFrom(t, term, q, a) ==> AckFrom(s, term, q, a);
      }
      assert OutvotedBy(env, t, term, v);
    }
  }

  lemma SomeVoter(env: Env, s: LState, term: nat, n: PeerId) returns (voter: PeerId)
    requires IsMajority(Voters(env, s, term, n), env.conf)
    ensures Grant(term, voter, n) in s.msgs
  {
    voter :| voter in Voters(env, s, term, n) * env.conf;
  }

  lemma LeadKeeps(env: Env, s: LState, n: PeerId)
    requires GoodClocks(env) && Inv(env, s) && Enabled(env, s, Lead(n))
    ensures Inv(env, Do(env, s, Lead(n)))
  {
    var t := Do(env, s, Lead(n));
    assert Evolves(s, t);
    forall u | u in t.leaders
      ensures LeadershipOk(env, t, u)
    {
      if u == s.nodes[n].term {
        LeadKeepsOwn(env, s, n);
      } else {
        LeadKeepsOther(env, s, n, u);
      }
    }
    forall m | m in t.msgs
      ensures MsgOk(env, t, m)
    {
      MsgKept(env, s, t, m);
    }
    forall m | m in t.nodes
      ensures LeaderOk(env, t, m)
    {
      if m != n {
        assert LeaderOk(env, s, m);
        LeaderKept(env, s, t, m);
      }
    }
    forall r | r in t.readings
      ensures ReadingOk(t, r)
    {
      ReadingKept(s, t, r);
    }
  }

  // ---- runs

  lemma StepPreserves(env: Env, s: LState, step: Step)
    requires GoodClocks(env) && Inv(env, s) && Enabled(env, s, step) && Timely(env, s, step)
    ensures Inv(env, Do(env, s, step))
  {
    hide Inv, GoodClocks, Do, Timely;
    match step
    case Tick(time) => TickKeeps(env, s, time);
    case Elect(_, _) => ElectKeeps(env, s, step);
    case Expire(_, _) => ElectKeeps(env, s, step);
    case GrantSelf(_) => VoteKeeps(env, s, step);
    case VoteFor(_, _) => VoteKeeps(env, s, step);
    case Lead(n) => LeadKeeps(env, s, n);
    case Receive(_, _) => ReceiveKeeps(env, s, step);
    case HearAck(_, _) => HearKeeps(env, s, step);
    case StartLease(_, _) => StartKeeps(env, s, step);
    case ReadSuspect(_) => ReadKeeps(env, s, step);
    case Renew(_, _, _) => RenewKeeps(env, s, step);
    case _ => QuietKeeps(env, s, step);
  }

  lemma InitInv(env: Env, s: LState)
    requires Init(env, s)
    ensures Inv(env, s)
  {
    assert forall n | n in s.nodes :: LeaderOk(env, s, n);
  }

  /** The invariant holds along every run whose renewals are timely. */
  lemma {:induction false} RunInv(env: Env, run: seq<LState>, i: nat)
    requires GoodClocks(env) && IsTimely(env, run) && i < |run|
    ensures Inv(env, run[i])
  {
    hide GoodClocks, Inv, Init;
    if i > 0 {
      RunInv(env, run, i - 1);
      assert TimelyNext(env, run[i - 1], run[i]);
      var step :| Enabled(env, run[i - 1], step) && run[i] == Do(env, run[i - 1], step) && Timely(env, run[i - 1], step);
      StepPreserves(env, run[i - 1], step);
    } else {
      InitInv(env, run[0]);
    }
  }

  /** A run in which every renewal belongs to a leadership whose lease has started is one of these. */
  lemma {:induction false} FencedRunIsTimely(env: Env, run: seq<LState>)
    requires GoodClocks(env) && IsFenced(env, run)
    ensures IsTimely(env, run)
  {
    hide GoodClocks, Init, Inv, Do, Enabled, Fenced, Timely;
    var n := |run| - 1;
    if n > 0 {
      var front := run[..n];
      assert forall i | 0 <= i < |front| - 1 :: FencedNext(env, run[i], run[i + 1]) ==> FencedNext(env, front[i], front[i + 1]);
      FencedRunIsTimely(env, front);
      RunInv(env, front, n - 1);
      assert FencedNext(env, run[n - 1], run[n]);
      var step :| Enabled(env, run[n - 1], step) && run[n] == Do(env, run[n - 1], step) && Fenced(env, run[n - 1], step);
      FencedIsTimely(env, run[n - 1], step);
      assert TimelyNext(env, run[n - 1], run[n]);
      forall i | 0 <= i < |run| - 1
        ensures TimelyNext(env, run[i], run[i + 1])
      {
        if i < n - 1 {
          assert TimelyNext(env, front[i], front[i + 1]);
        }
      }
    }
  }

  /** Lease safety: in a run whose renewals are timely, while a leader's lease is valid, no majority has voted in a later
      term and nobody leads one. */
  lemma LeaseIsSafe(env: Env, run: seq<LState>, i: nat, n: PeerId, voters: set<PeerId>)
    requires GoodClocks(env) && IsTimely(env, run) && i < |run| && LeaseValid(env, run[i], n)
    requires IsMajority(voters, env.conf) && voters <= env.conf
    ensures !ElectedAbove(run[i], run[i].nodes[n].term)
    ensures !(forall q | q in voters :: VotedAbove(run[i], run[i].nodes[n].term, q))
  {
    hide GoodClocks, IsTimely, Inv, LeaseValid;
    RunInv(env, run, i);
    ValidLeaseExcludes(env, run[i], n, voters);
  }

  /** Hence at any moment of such a run at most one node of the group has a valid lease. */
  lemma OneValidLease(env: Env, run: seq<LState>, i: nat, a: PeerId, b: PeerId)
    requires GoodClocks(env) && IsTimely(env, run) && i < |run| && LeaseValid(env, run[i], a) && LeaseValid(env, run[i], b)
    ensures a == b
  {
    RunInv(env, run, i);
    var s := run[i];
    assert LeaderOk(env, s, a) && LeaderOk(env, s, b);
    assert env.conf * env.conf == env.conf;
    ConfIsMajority(env, s, s.nodes[a].term);
    ValidLeaseExcludes(env, s, a, env.conf);
    ValidLeaseExcludes(env, s, b, env.conf);
  }

  lemma ConfIsMajority(env: Env, s: LState, term: nat)
    requires Inv(env, s) && term in s.leaders
    ensures IsMajority(env.conf, env.conf)
  {
    assert LeadershipOk(env, s, term);
    var v := Voters(env, s, term, s.leaders[term].leader);
    MajorityGrows(v, env.conf, env.conf);
  }
}
