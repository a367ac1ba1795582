/** What a renewal of a lease by a reading of an earlier leadership can do: exactly when another node can lead while the
    lease is valid. */
module LeaseRenewal {
  import opened Types
  import opened Quorum
  import opened Leases
  import opened LeaseSafety

  // ---- going on from a state

  /** Steps whose renewals are timely, from any state on. */
  ghost predicate Path(env: Env, path: seq<LState>) {
    path != [] && forall i | 0 <= i < |path| - 1 :: TimelyNext(env, path[i], path[i + 1])
  }

  function Last(path: seq<LState>): LState
    requires path != []
  {
    path[|path| - 1]
  }

  lemma Go(env: Env, path: seq<LState>, step: Step) returns (longer: seq<LState>)
    requires Path(env, path) && Enabled(env, Last(path), step) && !step.Renew?
    ensures Path(env, longer) && longer[0] == path[0] && Last(longer) == Do(env, Last(path), step)
  {
    assert Timely(env, Last(path), step);
    hide Enabled, Do, Timely;
    longer := path + [Do(env, Last(path), step)];
    assert TimelyNext(env, Last(path), Last(longer));
    forall i | 0 <= i < |longer| - 1
      ensures TimelyNext(env, longer[i], longer[i + 1])
    {
      if i < |path| - 1 {
        assert longer[i] == path[i] && longer[i + 1] == path[i + 1];
      }
    }
  }

  /** Nothing but the nodes in `touched`, and messages that are no acknowledgements, are new. */
  ghost predicate Apart(s: LState, u: LState, touched: set<PeerId>) {
    && u.now == s.now && u.readings == s.readings && u.nodes.Keys == s.nodes.Keys && s.msgs <= u.msgs
    && (forall a | a in u.msgs && a.Ack? :: a in s.msgs)
    && (forall q | q in s.nodes && q !in touched :: u.nodes[q] == s.nodes[q])
  }

  /** Everybody asked votes for `c`. */
  lemma {:induction false} VoteAll(env: Env, path: seq<LState>, c: PeerId, term: nat, voters: set<PeerId>) returns (longer: seq<LState>)
    requires Path(env, path) && VoteReq(term, c) in Last(path).msgs && voters <= Last(path).nodes.Keys
    requires forall q | q in voters :: Last(path).nodes[q].term < term && Votable(env, Last(path), q)
    ensures Path(env, longer) && longer[0] == path[0]
    ensures var s, u := Last(path), Last(longer);
            && Apart(s, u, voters) && u.leaders == s.leaders
            && forall q | q in voters ::
                 Grant(term, q, c) in u.msgs && u.nodes[q] == s.nodes[q].(term := term, leading := false)
    decreases |voters|
  {
    longer := path;
    if voters != {} {
      var q :| q in voters;
      var one := Go(env, path, VoteFor(q, VoteReq(term, c)));
      longer := VoteAll(env, one, c, term, voters - {q});
    }
  }

  /** A majority whose members may all vote makes one of them the leader of a new term. */
  lemma Campaign(env: Env, path: seq<LState>, c: PeerId, voters: set<PeerId>, k: nat) returns (longer: seq<LState>)
    requires Path(env, path) && c in voters && voters <= env.conf <= Last(path).nodes.Keys && IsMajority(voters, env.conf)
    requires forall q | q in voters :: Last(path).nodes[q].term <= k && Votable(env, Last(path), q)
    requires forall t | t in Last(path).leaders :: t <= k
    ensures Path(env, longer) && longer[0] == path[0]
    ensures var s, u := Last(path), Last(longer);
            && Apart(s, u, voters) && u.leaders == s.leaders[k + 1 := Leadership(c, env.clock(c, s.now))]
            && u.nodes[c] == LNode(k + 1, true, None, s.nodes[c].lastLeader,
                                   map p | p in env.conf - {c} :: env.clock(c, s.now), None)
            && forall q | q in voters && q != c :: u.nodes[q] == s.nodes[q].(term := k + 1, leading := false)
  {
    hide TimelyNext;
    longer := Elected(env, path, c, voters, k);
    var u := Last(longer);
    assert voters <= Voters(env, u, k + 1, c);
    MajorityGrows(voters, Voters(env, u, k + 1, c), env.conf);
    longer := Go(env, longer, Lead(c));
  }

  lemma Elected(env: Env, path: seq<LState>, c: PeerId, voters: set<PeerId>, k: nat) returns (longer: seq<LState>)
    requires Path(env, path) && c in voters && voters <= env.conf <= Last(path).nodes.Keys
    requires forall q | q in voters :: Last(path).nodes[q].term <= k && Votable(env, Last(path), q)
    ensures Path(env, longer) && longer[0] == path[0]
    ensures var s, u := Last(path), Last(longer);
            && Apart(s, u, voters) && u.leaders == s.leaders
            && forall q | q in voters ::
                 Grant(k + 1, q, c) in u.msgs && u.nodes[q] == s.nodes[q].(term := k + 1, leading := false)
  {
    hide TimelyNext;
    var asked := Stand(env, path, c, k);
    longer := VoteAll(env, asked, c, k + 1, voters - {c});
  }

  /** A node stands for the term after `k` and votes for itself. */
  lemma Stand(env: Env, path: seq<LState>, c: PeerId, k: nat) returns (longer: seq<LState>)
    requires Path(env, path) && c in Last(path).nodes && Last(path).nodes[c].term <= k && Votable(env, Last(path), c)
    ensures Path(env, longer) && longer[0] == path[0]
    ensures var s, u := Last(path), Last(longer);
            && Apart(s, u, {c}) && u.leaders == s.leaders && VoteReq(k + 1, c) in u.msgs && Grant(k + 1, c, c) in u.msgs
            && u.nodes[c] == s.nodes[c].(term := k + 1, leading := false)
  {
    longer := Go(env, path, StepDown(c, k));
    longer := Go(env, longer, Elect(c, None));
    longer := Go(env, longer, GrantSelf(c));
  }

  /** The followers in `who` acknowledge a request that the leader has just sent. */
  lemma {:induction false} ReceiveAll(env: Env, path: seq<LState>, n: PeerId, m: Msg, who: set<PeerId>) returns (longer: seq<LState>)
    requires Path(env, path) && m in Last(path).msgs && m.Append? && m.leader == n && n !in who
    requires who <= Last(path).nodes.Keys && forall q | q in who :: Last(path).nodes[q].term <= m.term
    ensures Path(env, longer) && longer[0] == path[0]
    ensures var s, u := Last(path), Last(longer);
            && u.now == s.now && u.readings == s.readings && u.leaders == s.leaders && u.nodes.Keys == s.nodes.Keys
            && (forall a | a in u.msgs && a.Ack? :: a in s.msgs || (a.from in who && a == Ack(m.term, a.from, m.stamp, s.now)))
            && (forall q | q in s.nodes && q !in who :: u.nodes[q] == s.nodes[q])
            && s.msgs <= u.msgs
            && forall q | q in who ::
                 && Ack(m.term, q, m.stamp, s.now) in u.msgs
                 && u.nodes[q] == s.nodes[q].(term := m.term, leading := false, stamp := Some(env.clock(q, s.now)),
                                              lastLeader := Some(n))
    decreases |who|
  {
    longer := path;
    if who != {} {
      var q :| q in who;
      var one := Go(env, path, Receive(q, m));
      longer := ReceiveAll(env, one, n, m, who - {q});
    }
  }

  lemma {:induction false} Bounded(terms: set<nat>) returns (k: nat)
    ensures forall t | t in terms :: t <= k
    decreases |terms|
  {
    k := 0;
    if terms != {} {
      var t :| t in terms;
      var rest := Bounded(terms - {t});
      k := Types.Max(rest, t);
      assert forall u | u in terms :: u == t || u in terms - {t};
    }
  }

  // ---- one renewal

  /** Nobody leads a later term while the lease is valid. */
  ghost predicate Excludes(env: Env, s: LState, n: PeerId) {
    LeaseValid(env, s, n) ==> !ElectedAbove(s, s.nodes[n].term)
  }

  /** A renewal without enough acknowledgements: once the members that have not acknowledged may vote, before the lease
      is over on the leader's clock, they elect a leader while it is valid. */
  lemma RenewedIsOvertaken(env: Env, s: LState, n: PeerId, r: Reading, t: int, later: int) returns (path: seq<LState>)
    requires Enabled(env, s, Renew(n, r, t)) && env.conf <= s.nodes.Keys && later >= s.now
    requires StateFrom(env, s, n, t) == StateFrom(env, s.(now := later), n, t) == Valid
    requires !Holds(env, Heard(env, s, s.nodes[n].term, n, t))
    requires forall q | q in env.conf - Heard(env, s, s.nodes[n].term, n, t) :: Votable(env, s.(now := later), q)
    ensures Path(env, path) && path[0] == Do(env, s, Renew(n, r, t))
    ensures LeaseValid(env, Last(path), n) && Last(path).nodes[n].term == s.nodes[n].term
    ensures ElectedAbove(Last(path), s.nodes[n].term)
  {
    var free, w := env.conf - Heard(env, s, s.nodes[n].term, n, t), Do(env, s, Renew(n, r, t)).(now := later);
    assert n !in free && w.nodes[n] == s.nodes[n].(active := Some(t)) && w.nodes.Keys == s.nodes.Keys;
    assert forall q | q in free :: w.nodes[q] == s.nodes[q];
    path := [Do(env, s, Renew(n, r, t))];
    path := Go(env, path, Tick(later));
    hide Enabled, Do, Heard, TimelyNext;
    path := Overtake(env, path, free, n);
  }

  /** A majority without `n`, whose members may all vote, elects a leader above everybody's term. */
  lemma Overtake(env: Env, path: seq<LState>, free: set<PeerId>, n: PeerId) returns (longer: seq<LState>)
    requires Path(env, path) && free <= env.conf <= Last(path).nodes.Keys && IsMajority(free, env.conf)
    requires n in Last(path).nodes && n !in free && forall q | q in free :: Votable(env, Last(path), q)
    ensures Path(env, longer) && longer[0] == path[0] && Last(longer).now == Last(path).now
    ensures n in Last(longer).nodes && Last(longer).nodes[n] == Last(path).nodes[n]
    ensures ElectedAbove(Last(longer), Last(path).nodes[n].term)
  {
    hide TimelyNext, Votable;
    var s := Last(path);
    var k := AllTerms(s);
    assert free != {};
    var c :| c in free;
    longer := Campaign(env, path, c, free, k);
    assert k + 1 in Last(longer).leaders && k + 1 > s.nodes[n].term;
  }

  lemma AllTerms(s: LState) returns (k: nat)
    ensures (forall q | q in s.nodes :: s.nodes[q].term <= k) && forall t | t in s.leaders :: t <= k
  {
    var terms := set q | q in s.nodes :: s.nodes[q].term;
    k := Bounded(terms + s.leaders.Keys);
    assert forall q | q in s.nodes :: s.nodes[q].term in terms;
  }

  /** A timely renewal: whatever follows, as long as later renewals are timely too. */
  lemma {:induction false} PathIsSafe(env: Env, path: seq<LState>, n: PeerId)
    requires GoodClocks(env) && Path(env, path) && Inv(env, path[0])
    ensures Inv(env, Last(path)) && Excludes(env, Last(path), n)
    decreases |path|
  {
    hide GoodClocks, Inv, Enabled, Do, Timely, LeaseValid;
    if |path| > 1 {
      var k := |path| - 2;
      var front := path[..k + 1];
      forall i | 0 <= i < |front| - 1
        ensures TimelyNext(env, front[i], front[i + 1])
      {
        assert TimelyNext(env, path[i], path[i + 1]);
      }
      PathIsSafe(env, front, n);
      assert TimelyNext(env, path[k], path[k + 1]);
      var step :| Enabled(env, path[k], step) && path[k + 1] == Do(env, path[k], step) && Timely(env, path[k], step);
      StepPreserves(env, path[k], step);
    }
    if LeaseValid(env, Last(path), n) {
      ExcludedNow(env, Last(path), n);
    }
  }

  lemma ExcludedNow(env: Env, s: LState, n: PeerId)
    requires Inv(env, s) && LeaseValid(env, s, n)
    ensures n in s.nodes && !ElectedAbove(s, s.nodes[n].term)
  {
    assert LeaderOk(env, s, n);
    ConfIsMajority(env, s, s.nodes[n].term);
    ValidLeaseExcludes(env, s, n, env.conf);
  }

  /** When the members that have not acknowledged may vote before the lease is over: nobody ever leads a later term while
      the lease is valid, if and only if no majority can form without those that have acknowledged. */
  lemma RenewalExactly(env: Env, s: LState, n: PeerId, r: Reading, t: int, later: int)
    requires GoodClocks(env) && Inv(env, s) && Enabled(env, s, Renew(n, r, t)) && later >= s.now
    requires StateFrom(env, s, n, t) == StateFrom(env, s.(now := later), n, t) == Valid
    requires forall q | q in env.conf - Heard(env, s, s.nodes[n].term, n, t) :: Votable(env, s.(now := later), q)
    ensures (forall path | Path(env, path) && path[0] == Do(env, s, Renew(n, r, t)) :: Excludes(env, Last(path), n))
            <==> Holds(env, Heard(env, s, s.nodes[n].term, n, t))
  {
    if Holds(env, Heard(env, s, s.nodes[n].term, n, t)) {
      StepPreserves(env, s, Renew(n, r, t));
      forall path | Path(env, path) && path[0] == Do(env, s, Renew(n, r, t))
        ensures Excludes(env, Last(path), n)
      {
        PathIsSafe(env, path, n);
      }
    } else {
      var path := RenewedIsOvertaken(env, s, n, r, t, later);
      assert !Excludes(env, Last(path), n);
    }
  }

  // ---- every group

  ghost predicate Agree(env: Env) {
    forall p, x {:trigger env.clock(p, x)} :: env.clock(p, x) == x
  }

  /** Clocks that agree. */
  function Exact(conf: set<PeerId>, timeout: int, drift: int): Env {
    Env(conf, timeout, drift, (p, x) => x)
  }

  /** In this run the lease of `n` is renewed at `k`, when the members in `heard` have acknowledged the leadership, all
      other renewals are timely, and at the end another node leads a later term while the lease is valid. */
  ghost predicate Overtaken(env: Env, run: seq<LState>, k: nat, n: PeerId, r: Reading, t: int, heard: set<PeerId>) {
    && k + 1 < |run| && Init(env, run[0])
    && Enabled(env, run[k], Renew(n, r, t)) && run[k + 1] == Do(env, run[k], Renew(n, r, t))
    && Heard(env, run[k], run[k].nodes[n].term, n, t) == heard
    && (forall i | 0 <= i < |run| - 1 && i != k :: TimelyNext(env, run[i], run[i + 1]))
    && LeaseValid(env, Last(run), n) && ElectedAbove(Last(run), Last(run).nodes[n].term)
  }

  lemma OvertakenIsRun(env: Env, run: seq<LState>, k: nat, n: PeerId, r: Reading, t: int, heard: set<PeerId>)
    requires Overtaken(env, run, k, n, r, t, heard)
    ensures IsRun(env, run)
  {
    hide Enabled, Do, Init, LeaseValid, Heard;
    forall i | 0 <= i < |run| - 1
      ensures Next(env, run[i], run[i + 1])
    {
      if i != k {
        assert TimelyNext(env, run[i], run[i + 1]);
      }
    }
  }

  lemma WithoutMajority(env: Env, run: seq<LState>, k: nat, n: PeerId, r: Reading, t: int, heard: set<PeerId>)
    requires GoodClocks(env) && Overtaken(env, run, k, n, r, t, heard)
    ensures n in heard && heard <= env.conf && !Holds(env, heard)
  {
    BeforeRenewal(env, run, k);
    assert LeaderOk(env, run[k], n) && LeadershipOk(env, run[k], run[k].nodes[n].term);
    if Holds(env, heard) {
      hide Inv, Enabled, Do, Init, LeaseValid, Heard, GoodClocks, LeaderOk, LeadershipOk;
      assert TimelyNext(env, run[k], run[k + 1]) by { assert Timely(env, run[k], Renew(n, r, t)); }
      assert Path(env, run);
      InitInv(env, run[0]);
      PathIsSafe(env, run, n);
    }
  }

  lemma BeforeRenewal(env: Env, run: seq<LState>, k: nat)
    requires GoodClocks(env) && k < |run| && Init(env, run[0])
    requires forall i | 0 <= i < |run| - 1 && i != k :: TimelyNext(env, run[i], run[i + 1])
    ensures Inv(env, run[k])
  {
    hide Inv, Init, GoodClocks, TimelyNext;
    var front := run[..k + 1];
    forall i | 0 <= i < |front| - 1
      ensures TimelyNext(env, front[i], front[i + 1])
    {
      assert TimelyNext(env, run[i], run[i + 1]);
    }
    RunInv(env, front, k);
  }

  /** As many distinct peers as wanted. */
  lemma {:induction false} Pick(peers: set<PeerId>, m: nat) returns (who: seq<PeerId>)
    requires m <= |peers|
    ensures |who| == m && (forall i, j | 0 <= i < j < m :: who[i] != who[j]) && forall p | p in who :: p in peers
    decreases m
  {
    who := [];
    if m > 0 {
      var p :| p in peers;
      var rest := Pick(peers - {p}, m - 1);
      who := [p] + rest;
    }
  }

  /** Stamps that are all the same vouch for that time. */
  lemma SameStamps(peers: set<PeerId>, server: PeerId, stamps: map<PeerId, int>, now: int, t: int)
    requires server in peers && peers != {server} && stamps.Keys == peers - {server} && forall p | p in stamps :: stamps[p] == t
    ensures Vouched(peers, server, stamps, now, t)
  {
    var others := peers - {server};
    assert |others| == |peers| - 1;
    assert others != {};
    var bound := |peers| / 2;
    var who := Pick(others, bound);
    var kept := seq(bound, i => t);
    forall p | p in others && p !in who
      ensures |others| > bound
    {
      DistinctSize(who);
      SubsetCardinality(PeerSet(who) + {p}, others);
    }
    assert Keeps(kept, who, others, bound, stamps);
  }

  /** A leader that everybody has acknowledged: its lease starts, is suspect later, and it is still in the reader's mind
      when the leader has stepped down and all may vote again. */
  lemma FirstLease(env: Env, n: PeerId) returns (path: seq<LState>)
    requires Agree(env) && env.timeout > 0 && env.drift >= 0
    requires n in env.conf && env.conf != {n}
    ensures Path(env, path) && Init(env, path[0])
    ensures var s := Last(path);
            && s.now == 1 + env.timeout + env.drift && s.nodes.Keys == env.conf && s.readings == {Reading(n, 2)}
            && (forall t | t in s.leaders :: t == 2) && (forall a | a in s.msgs && a.Ack? :: a.term == 2)
            && forall q | q in env.conf :: s.nodes[q].term == 2 && Votable(env, s, q)
  {
    path := FirstLeader(env, n);
    path := Go(env, path, Tick(1 + env.timeout + env.drift));
    path := Go(env, path, ReadSuspect(n));
    path := Go(env, path, StepDown(n, 2));
  }

  lemma FirstLeader(env: Env, n: PeerId) returns (path: seq<LState>)
    requires Agree(env) && n in env.conf && env.conf != {n}
    ensures Path(env, path) && Init(env, path[0])
    ensures var s := Last(path);
            && s.now == 1 && s.nodes.Keys == env.conf && s.readings == {} && s.leaders == map[2 := Leadership(n, 1)]
            && (forall a | a in s.msgs && a.Ack? :: a.term == 2)
            && s.nodes[n].leading && s.nodes[n].term == 2 && s.nodes[n].stamp.None? && s.nodes[n].active == Some(1)
            && forall q | q in env.conf && q != n :: s.nodes[q].term == 2 && s.nodes[q].stamp == Some(1)
  {
    hide TimelyNext, Heard, Vouched, Init;
    path := FirstAcks(env, n);
    path := Go(env, path, StartLease(n, 1));
  }

  lemma FirstAcks(env: Env, n: PeerId) returns (path: seq<LState>)
    requires Agree(env) && n in env.conf && env.conf != {n}
    ensures Path(env, path) && Init(env, path[0])
    ensures var s := Last(path);
            && s.now == 1 && s.nodes.Keys == env.conf && s.readings == {} && s.leaders == map[2 := Leadership(n, 1)]
            && (forall a | a in s.msgs && a.Ack? :: a.term == 2)
            && s.nodes[n].leading && s.nodes[n].term == 2 && s.nodes[n].stamp.None?
            && (forall q | q in env.conf && q != n :: s.nodes[q].term == 2 && s.nodes[q].stamp == Some(1))
            && IsMajority(Heard(env, s, 2, n, 1), env.conf) && Vouched(env.conf, n, s.nodes[n].stamps, 1, 1)
  {
    hide TimelyNext, Init, Heard, Vouched;
    path := FirstElection(env, n);
    path := Acknowledge(env, path, n, env.conf - {n});
    assert (env.conf - {n} + {n}) * env.conf == env.conf;
    SameStamps(env.conf, n, Last(path).nodes[n].stamps, 1, 1);
  }

  /** In every group of two or more there is a run, without any renewal, in which a leader's lease is valid. */
  lemma SomeLeaseIsValid(env: Env, n: PeerId) returns (run: seq<LState>)
    requires Agree(env) && env.timeout > 0 && n in env.conf && env.conf != {n}
    ensures IsTimely(env, run) && LeaseValid(env, Last(run), n)
  {
    hide TimelyNext, Init;
    run := FirstLeader(env, n);
  }

  /** The members in `who` acknowledge the first request of a leader, and nobody else does. */
  lemma Acknowledge(env: Env, path: seq<LState>, n: PeerId, who: set<PeerId>) returns (longer: seq<LState>)
    requires Path(env, path) && n in Last(path).nodes && Last(path).nodes[n].leading
    requires n in env.conf && n !in who && who <= env.conf <= Last(path).nodes.Keys
    requires forall q | q in who :: Last(path).nodes[q].term <= Last(path).nodes[n].term
    requires forall a | a in Last(path).msgs && a.Ack? :: a.term != Last(path).nodes[n].term
    ensures Path(env, longer) && longer[0] == path[0]
    ensures var s, u := Last(path), Last(longer);
            var term, stamp := s.nodes[n].term, env.clock(n, s.now);
            && u.now == s.now && u.readings == s.readings && u.leaders == s.leaders && u.nodes.Keys == s.nodes.Keys
            && (forall q | q in s.nodes && q !in who :: u.nodes[q] == s.nodes[q])
            && (forall q | q in who :: u.nodes[q].term == term && u.nodes[q].stamp == Some(env.clock(q, s.now)))
            && (forall a | a in u.msgs && a.Ack? :: a in s.msgs || a.term == term)
            && Heard(env, u, term, n, stamp) == who + {n}
  {
    hide TimelyNext;
    var s := Last(path);
    var term, stamp := s.nodes[n].term, env.clock(n, s.now);
    longer := Go(env, path, Send(n));
    longer := ReceiveAll(env, longer, n, Append(term, n, stamp), who);
    var u := Last(longer);
    forall p | p in who
      ensures p in Heard(env, u, term, n, stamp)
    {
      assert AckFrom(u, term, p, Ack(term, p, stamp, s.now));
    }
  }

  lemma FirstElection(env: Env, n: PeerId) returns (path: seq<LState>)
    requires Agree(env) && n in env.conf
    ensures Path(env, path) && Init(env, path[0])
    ensures var s := Last(path);
            && s.now == 1 && s.nodes.Keys == env.conf && s.readings == {} && s.leaders == map[2 := Leadership(n, 1)]
            && (forall a | a in s.msgs :: !a.Ack?)
            && s.nodes[n] == LNode(2, true, None, None, map p | p in env.conf - {n} :: 1, None)
            && forall q | q in env.conf && q != n :: s.nodes[q].term == 2
  {
    var s := LState(1, map p | p in env.conf :: LNode(1, false, None, None, map[], None), {}, map[], {});
    path := [s];
    assert env.conf * env.conf == env.conf;
    path := Campaign(env, path, n, env.conf, 1);
  }

  /** The second leadership: only the members in `heard` have acknowledged it, all others may vote, and the reading of the
      first one is still there. */
  lemma SecondLeader(env: Env, n: PeerId, heard: set<PeerId>) returns (path: seq<LState>)
    requires Agree(env) && env.timeout > 0 && env.drift >= 0
    requires n in heard && heard <= env.conf && env.conf != {n}
    ensures Path(env, path) && Init(env, path[0])
    ensures var s := Last(path);
            && s.nodes.Keys == env.conf && Enabled(env, s, Renew(n, Reading(n, 2), s.now)) && s.nodes[n].active.None?
            && StateFrom(env, s, n, s.now) == Valid && Heard(env, s, s.nodes[n].term, n, s.now) == heard
            && forall q | q in env.conf - heard :: Votable(env, s, q)
  {
    hide TimelyNext, Heard, Vouched, Init;
    path := SecondElection(env, n);
    path := Acknowledge(env, path, n, heard - {n});
    var s := Last(path);
    assert heard - {n} + {n} == heard;
    SameStamps(env.conf, n, s.nodes[n].stamps, s.now, s.now);
  }

  lemma SecondElection(env: Env, n: PeerId) returns (path: seq<LState>)
    requires Agree(env) && env.timeout > 0 && env.drift >= 0 && n in env.conf && env.conf != {n}
    ensures Path(env, path) && Init(env, path[0])
    ensures var s := Last(path);
            && s.now > 0 && s.nodes.Keys == env.conf && s.readings == {Reading(n, 2)}
            && (forall a | a in s.msgs && a.Ack? :: a.term == 2)
            && s.nodes[n].leading && s.nodes[n].term == 3 && s.nodes[n].active.None?
            && s.nodes[n].stamps == (map p | p in env.conf - {n} :: s.now)
            && forall q | q in env.conf && q != n :: s.nodes[q].term == 3 && Votable(env, s, q)
  {
    hide TimelyNext, Init;
    path := FirstLease(env, n);
    assert env.conf * env.conf == env.conf;
    path := Campaign(env, path, n, env.conf, 2);
  }

  /** The run for a set of members without which a majority can form. */
  lemma OvertakenRun(env: Env, n: PeerId, heard: set<PeerId>) returns (run: seq<LState>, k: nat, t: int)
    requires Agree(env) && env.timeout > 0 && env.drift >= 0
    requires n in heard && heard <= env.conf && !Holds(env, heard)
    ensures Overtaken(env, run, k, n, Reading(n, 2), t, heard) && run[k].nodes[n].active.None?
  {
    NotAlone(env, n, heard);
    var path := SecondLeader(env, n, heard);
    var s, r := Last(path), Reading(n, 2);
    var rest := RenewedIsOvertaken(env, s, n, r, s.now, s.now);
    hide Enabled, Do, Init, LeaseValid, Heard, TimelyNext, Holds;
    run, k, t := path + rest, |path| - 1, s.now;
    forall i | 0 <= i < |run| - 1 && i != k
      ensures TimelyNext(env, run[i], run[i + 1])
    {
      if i < k {
        assert run[i] == path[i] && run[i + 1] == path[i + 1];
      } else {
        var j := i - |path|;
        assert run[i] == rest[j] && run[i + 1] == rest[j + 1];
      }
    }
  }

  lemma NotAlone(env: Env, n: PeerId, heard: set<PeerId>)
    requires n in heard && heard <= env.conf && !Holds(env, heard)
    ensures env.conf != {n}
  {
    assert n in env.conf && exists q :: q in env.conf - heard;
  }

  /** What a leader can know: a lease renewed when the members in `heard` have acknowledged its leadership can be overtaken
      if and only if a majority can form without them. Groups of one and two are never overtaken. */
  lemma OvertakenExactly(conf: set<PeerId>, timeout: int, drift: int, n: PeerId, heard: set<PeerId>)
    requires timeout > 0 && drift >= 0
    ensures var env := Exact(conf, timeout, drift);
            (exists run, k, r, t :: Overtaken(env, run, k, n, r, t, heard))
            <==> n in heard && heard <= conf && IsMajority(conf - heard, conf)
  {
    var env := Exact(conf, timeout, drift);
    assert GoodClocks(env);
    if run, k, r, t :| Overtaken(env, run, k, n, r, t, heard) {
      WithoutMajority(env, run, k, n, r, t, heard);
    } else if n in heard && heard <= conf && IsMajority(conf - heard, conf) {
      var run, k, t := OvertakenRun(env, n, heard);
    }
  }

  lemma SmallGroups(conf: set<PeerId>, n: PeerId, heard: set<PeerId>)
    requires n in heard && n in conf && |conf| <= 2
    ensures !IsMajority(conf - heard, conf)
  {
    SubsetCardinality((conf - heard) * conf, conf - {n});
  }

  /** Three nodes, of which nobody has acknowledged the second leadership of node 1. */
  lemma ThreeOvertaken() returns (run: seq<LState>, k: nat)
    ensures IsRun(Exact({1, 2, 3}, 10, 0), run) && k < |run| && 1 in run[k].nodes && run[k].nodes[1].active.None?
    ensures LeaseValid(Exact({1, 2, 3}, 10, 0), Last(run), 1) && ElectedAbove(Last(run), Last(run).nodes[1].term)
  {
    var env, t := Exact({1, 2, 3}, 10, 0), 0;
    assert env.conf - {1} == {2, 3} && {2, 3} * env.conf == {2, 3} && |{2, 3}| == 2 && |env.conf| == 3;
    run, k, t := OvertakenRun(env, 1, {1});
    OvertakenIsRun(env, run, k, 1, Reading(1, 2), t, {1});
  }
}
