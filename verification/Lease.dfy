/** Leader and follower leases: their state, and the time a leader knows a majority to have heard of it. */
module Leases {
  import opened Types
  import opened Quorum

  datatype LeaseState = Disabled | Expired | NotReady | Valid | Suspect

  // ---- the leader's side

  /** `term` 0 means that the node does not lead, `lastActive` 0 that the lease has not started. */
  datatype LeaderView = LeaderView(timeout: int, lastActive: int, term: nat, epoch: nat)

  function StateAt(v: LeaderView, enabled: bool, now: int): LeaseState {
    if !enabled then Disabled
    else if v.term == 0 then Expired
    else if v.lastActive == 0 then NotReady
    else if now < v.lastActive + v.timeout then Valid
    else Suspect
  }

  /** What starting the lease makes of it: a start that belongs to another leadership is ignored. */
  function Started(v: LeaderView, epoch: nat, stamp: int): LeaderView {
    if v.term == 0 || epoch != v.epoch then v else v.(lastActive := stamp)
  }

  class LeaderLease {
    var electionTimeout: int
    var lastActiveTimestamp: int
    var term: nat
    var leaseEpoch: nat

    function View(): LeaderView
      reads this
    {
      LeaderView(electionTimeout, lastActiveTimestamp, term, leaseEpoch)
    }

    constructor (timeout: int)
      ensures View() == LeaderView(timeout, 0, 0, 0)
    {
      electionTimeout, lastActiveTimestamp, term, leaseEpoch := timeout, 0, 0, 0;
    }

    /** A new leadership waits for its lease: whatever the old one had vouched for is void, and so is a start that is
        still on its way for any epoch up to now. */
    method OnLeaderStart(newTerm: nat)
      modifies this
      ensures View() == old(View()).(epoch := old(leaseEpoch) + 1, term := newTerm, lastActive := 0)
      ensures forall now :: StateAt(View(), true, now) == if newTerm == 0 then Expired else NotReady
      ensures forall epoch: nat, stamp | epoch <= old(leaseEpoch) :: Started(View(), epoch, stamp) == View()
    {
      leaseEpoch := leaseEpoch + 1;
      term := newTerm;
      lastActiveTimestamp := 0;
    }

    method OnLeaderStop()
      modifies this
      ensures View() == old(View()).(lastActive := 0, term := 0)
      ensures forall enabled, now :: StateAt(View(), enabled, now) in {Disabled, Expired}
    {
      lastActiveTimestamp := 0;
      term := 0;
    }

    /** The lease starts, for the leadership that asked for it only: it is valid up to one timeout after the stamp. */
    method OnLeaseStart(expectedEpoch: nat, lastActive: int)
      modifies this
      ensures View() == Started(old(View()), expectedEpoch, lastActive)
      ensures term > 0 && expectedEpoch == leaseEpoch && lastActive != 0 ==>
                forall now :: StateAt(View(), true, now) == if now < lastActive + electionTimeout then Valid else Suspect
    {
      if term == 0 || expectedEpoch != leaseEpoch {
        return;
      }
      lastActiveTimestamp := lastActive;
    }

    /** A leader's lease is valid up to one timeout after the new stamp, whatever the old one was. */
    method Renew(lastActive: int)
      modifies this
      ensures View() == old(View()).(lastActive := lastActive)
      ensures term > 0 && lastActive != 0 ==>
                forall now :: StateAt(View(), true, now) == if now < lastActive + electionTimeout then Valid else Suspect
    {
      lastActiveTimestamp := lastActive;
    }

    /** Valid only while the clock is within one election timeout of a time a majority has vouched for. */
    method GetLeaseInfo(enabled: bool, now: int) returns (state: LeaseState, infoTerm: nat, infoEpoch: nat)
      ensures state == StateAt(View(), enabled, now)
      ensures if state == Valid then infoTerm == term && infoEpoch == leaseEpoch else infoTerm == 0 && infoEpoch == 0
    {
      infoTerm, infoEpoch := 0, 0;
      if !enabled {
        return Disabled, infoTerm, infoEpoch;
      }
      if term == 0 {
        return Expired, infoTerm, infoEpoch;
      }
      if lastActiveTimestamp == 0 {
        return NotReady, infoTerm, infoEpoch;
      }
      if now < lastActiveTimestamp + electionTimeout {
        return Valid, term, leaseEpoch;
      }
      state := Suspect;
    }
  }

  /** A thread that has read a suspect lease renews it after another leadership has begun: the lease of that leadership,
      which has not started, is valid. */
  method RenewedTooSoon(lease: LeaderLease, now: int, newTerm: nat, stamp: int, later: int)
    returns (read: LeaseState, before: LeaseState, after: LeaseState)
    requires StateAt(lease.View(), true, now) == Suspect && newTerm > 0 && stamp != 0 && later < stamp + lease.electionTimeout
    modifies lease
    ensures read == Suspect && before == NotReady && after == Valid
    ensures lease.leaseEpoch == old(lease.leaseEpoch) + 1 && lease.term == newTerm
  {
    var epoch, leading;
    read, leading, epoch := lease.GetLeaseInfo(true, now);
    lease.OnLeaderStop();
    lease.OnLeaderStart(newTerm);
    before, leading, epoch := lease.GetLeaseInfo(true, later);
    lease.Renew(stamp);
    after, leading, epoch := lease.GetLeaseInfo(true, later);
  }

  // ---- the follower's side

  class FollowerLease {
    var electionTimeout: int
    var maxClockDrift: int
    var lastLeader: Option<PeerId>
    var lastLeaderTimestamp: int

    /** A restarted node does not know what it promised, so it counts from now. */
    constructor (timeout: int, drift: int, now: int)
      ensures electionTimeout == timeout && maxClockDrift == drift && lastLeaderTimestamp == now && lastLeader == None
      ensures forall later :: IsExpired(later) <==> later >= now + timeout + drift
      ensures timeout + drift >= 0 ==> VotableTimeFromNow(true, now) == timeout + drift
    {
      electionTimeout, maxClockDrift, lastLeader, lastLeaderTimestamp := timeout, drift, None, now;
    }

    /** The promise to `leader` holds for a whole timeout and the drift from now on. */
    method Renew(leader: PeerId, now: int)
      modifies this
      ensures lastLeader == Some(leader) && lastLeaderTimestamp == now
      ensures electionTimeout == old(electionTimeout) && maxClockDrift == old(maxClockDrift)
      ensures forall later :: IsExpired(later) <==> later >= now + electionTimeout + maxClockDrift
      ensures electionTimeout + maxClockDrift >= 0 ==> VotableTimeFromNow(true, now) == electionTimeout + maxClockDrift
    {
      lastLeader := Some(leader);
      lastLeaderTimestamp := now;
    }

    /** How long the node still has to wait before it may vote: waiting that long makes it votable, less does not. */
    function VotableTimeFromNow(enabled: bool, now: int): (wait: int)
      reads this
      ensures wait >= 0
      ensures enabled ==> forall later {:trigger IsExpired(later)} | later >= now ::
                            IsExpired(later) <==> later >= now + wait
      ensures wait == 0 <==> !enabled || IsExpired(now)
    {
      if !enabled then 0
      else
        var votable := lastLeaderTimestamp + electionTimeout + maxClockDrift;
        if now >= votable then 0 else votable - now
    }

    predicate IsExpired(now: int)
      reads this
    {
      now - lastLeaderTimestamp >= electionTimeout + maxClockDrift
    }

    /** Gives the promise up: from then on the node may vote at any time but the first moments of the clock. */
    method Expire()
      modifies this`lastLeaderTimestamp
      ensures lastLeaderTimestamp == 0
      ensures forall now :: IsExpired(now) <==> now >= electionTimeout + maxClockDrift
      ensures forall now | now >= electionTimeout + maxClockDrift :: VotableTimeFromNow(true, now) == 0
    {
      lastLeaderTimestamp := 0;
    }
  }

  // ---- the time a majority has vouched for

  /** The members of `peers` that the leader heard of at or after `t`, and the leader itself. */
  ghost function HeardSince(peers: set<PeerId>, server: PeerId, stamps: map<PeerId, int>, t: int): set<PeerId>
    requires peers - {server} <= stamps.Keys
  {
    set p | p in peers && (p == server || stamps[p] >= t)
  }

  /** A peer that is no longer kept was below everything that is. */
  ghost predicate Dropped(kept: seq<int>, seen: set<PeerId>, bound: nat, stamps: map<PeerId, int>, p: PeerId) {
    |seen| > bound && p in stamps && (kept != [] ==> stamps[p] <= kept[|kept| - 1])
  }

  /** Stamps of distinct peers, largest first. */
  ghost predicate Sorted(kept: seq<int>, who: seq<PeerId>, stamps: map<PeerId, int>) {
    && |kept| == |who|
    && (forall i | 0 <= i < |who| :: who[i] in stamps && kept[i] == stamps[who[i]])
    && (forall i, j | 0 <= i < j < |who| :: who[i] != who[j] && kept[i] >= kept[j])
  }

  /** What the heap holds: the `bound` largest time stamps of the peers seen so far. */
  ghost predicate Keeps(kept: seq<int>, who: seq<PeerId>, seen: set<PeerId>, bound: nat, stamps: map<PeerId, int>) {
    && Sorted(kept, who, stamps) && |kept| == Min(|seen|, bound)
    && (forall p | p in who :: p in seen)
    && (forall p | p in seen && p !in who :: Dropped(kept, seen, bound, stamps, p))
  }

  function PeerSet(peers: seq<PeerId>): set<PeerId> {
    set p | p in peers
  }

  /** Inserts a stamp in its place, as pushing it on the heap does. */
  method Push(kept: seq<int>, stamp: int) returns (r: seq<int>, ghost pos: nat)
    requires forall i, j | 0 <= i < j < |kept| :: kept[i] >= kept[j]
    ensures pos <= |kept| && r == kept[..pos] + [stamp] + kept[pos..]
    ensures forall i | 0 <= i < pos :: kept[i] >= stamp
    ensures forall i | pos <= i < |kept| :: kept[i] <= stamp
  {
    var k := 0;
    while k < |kept| && kept[k] >= stamp
      invariant k <= |kept|
      invariant forall i | 0 <= i < k :: kept[i] >= stamp
    {
      k := k + 1;
    }
    pos := k;
    r := kept[..k] + [stamp] + kept[k..];
  }

  /** One more peer: its stamp is inserted, and above the bound the smallest one goes. */
  lemma KeepsOneMore(kept: seq<int>, who: seq<PeerId>, seen: set<PeerId>, bound: nat, stamps: map<PeerId, int>,
                     p: PeerId, pos: nat)
    requires Keeps(kept, who, seen, bound, stamps) && p !in seen && p in stamps && pos <= |kept|
    requires forall i | 0 <= i < pos :: kept[i] >= stamps[p]
    requires forall i | pos <= i < |kept| :: kept[i] <= stamps[p]
    ensures var r, w := kept[..pos] + [stamps[p]] + kept[pos..], who[..pos] + [p] + who[pos..];
            if |r| > bound then Keeps(r[..|kept|], w[..|kept|], seen + {p}, bound, stamps)
            else Keeps(r, w, seen + {p}, bound, stamps)
  {
    var r, w := kept[..pos] + [stamps[p]] + kept[pos..], who[..pos] + [p] + who[pos..];
    var n, all := |kept|, seen + {p};
    assert |all| == |seen| + 1;
    InsertedPeers(who, pos, p);
    InsertedSorted(kept, who, stamps, p, pos);
    assert p !in who;
    hide Sorted;
    assert |r| == |w| == n + 1;
    if |r| > bound {
      DropLast(r, w, stamps);
      forall q | q in all && q !in w[..n]
        ensures Dropped(r[..n], all, bound, stamps, q)
      {
        LastOrDropped(kept, who, seen, bound, stamps, p, pos, q);
      }
    }
  }

  lemma InsertedSorted(kept: seq<int>, who: seq<PeerId>, stamps: map<PeerId, int>, p: PeerId, pos: nat)
    requires Sorted(kept, who, stamps) && p !in who && p in stamps && pos <= |kept|
    requires forall i | 0 <= i < pos :: kept[i] >= stamps[p]
    requires forall i | pos <= i < |kept| :: kept[i] <= stamps[p]
    ensures Sorted(kept[..pos] + [stamps[p]] + kept[pos..], who[..pos] + [p] + who[pos..], stamps)
  {
  }

  lemma DropLast(kept: seq<int>, who: seq<PeerId>, stamps: map<PeerId, int>)
    requires Sorted(kept, who, stamps) && kept != []
    ensures Sorted(kept[..|kept| - 1], who[..|kept| - 1], stamps)
  {
  }

  lemma LastOrDropped(kept: seq<int>, who: seq<PeerId>, seen: set<PeerId>, bound: nat, stamps: map<PeerId, int>,
                      p: PeerId, pos: nat, q: PeerId)
    requires Keeps(kept, who, seen, bound, stamps) && p !in seen && p in stamps && pos <= |kept|
    requires forall i | 0 <= i < pos :: kept[i] >= stamps[p]
    requires forall i | pos <= i < |kept| :: kept[i] <= stamps[p]
    requires |kept| + 1 > bound && q in seen + {p} && q !in (who[..pos] + [p] + who[pos..])[..|kept|]
    ensures Dropped((kept[..pos] + [stamps[p]] + kept[pos..])[..|kept|], seen + {p}, bound, stamps, q)
  {
    var r, w := kept[..pos] + [stamps[p]] + kept[pos..], who[..pos] + [p] + who[pos..];
    var n := |kept|;
    assert |seen + {p}| == |seen| + 1;
    InsertedPeers(who, pos, p);
    InsertedSorted(kept, who, stamps, p, pos);
    if q in w {
      assert w == w[..n] + [w[n]];
      assert q == w[n] && stamps[q] == r[n];
    }
  }

  /** Inserting a peer keeps the others. */
  lemma InsertedPeers(who: seq<PeerId>, pos: nat, p: PeerId)
    requires pos <= |who|
    ensures forall q :: q in who[..pos] + [p] + who[pos..] <==> q in who || q == p
  {
    assert who == who[..pos] + who[pos..];
  }

  /** `t` is the smallest of the kept stamps, or the current time when there is nobody else to hear of. */
  ghost predicate Vouched(peers: set<PeerId>, server: PeerId, stamps: map<PeerId, int>, now: int, t: int) {
    exists kept, who :: Keeps(kept, who, peers - {server}, |peers| / 2, stamps)
                        && t == if kept == [] then now else kept[|kept| - 1]
  }

  /** One turn of the loop: the stamp goes on the heap, and the smallest one off it above the bound. */
  method AddPeer(kept: seq<int>, ghost who: seq<PeerId>, ghost seen: set<PeerId>, bound: nat, stamps: map<PeerId, int>,
                 p: PeerId)
    returns (r: seq<int>, ghost w: seq<PeerId>)
    requires Keeps(kept, who, seen, bound, stamps) && p !in seen && p in stamps
    ensures Keeps(r, w, seen + {p}, bound, stamps)
  {
    ghost var pos;
    r, pos := Push(kept, stamps[p]);
    KeepsOneMore(kept, who, seen, bound, stamps, p, pos);
    w := who[..pos] + [p] + who[pos..];
    if |r| > bound {
      r, w := r[..|kept|], w[..|kept|];
    }
  }

  method LastLeaderActiveTimestamp(peers: seq<PeerId>, server: PeerId, stamps: map<PeerId, int>, now: int) returns (t: int)
    requires forall i, j | 0 <= i < j < |peers| :: peers[i] != peers[j]
    requires forall p | p in peers && p != server :: p in stamps
    ensures Vouched(PeerSet(peers), server, stamps, now, t)
  {
    hide Keeps, PeerSet;
    DistinctSize(peers);
    ghost var who: seq<PeerId> := [];
    var kept: seq<int> := [];
    NobodyYet(peers, server, |peers| / 2, stamps);
    var i := 0;
    while i < |peers|
      invariant i <= |peers|
      invariant Keeps(kept, who, PeerSet(peers[..i]) - {server}, |peers| / 2, stamps)
    {
      OneMorePeer(peers, i, server);
      if peers[i] != server {
        kept, who := AddPeer(kept, who, PeerSet(peers[..i]) - {server}, |peers| / 2, stamps, peers[i]);
      }
      i := i + 1;
    }
    assert peers[..i] == peers;
    t := if kept == [] then now else kept[|kept| - 1];
  }

  lemma NobodyYet(peers: seq<PeerId>, server: PeerId, bound: nat, stamps: map<PeerId, int>)
    ensures Keeps([], [], PeerSet(peers[..0]) - {server}, bound, stamps)
  {
    assert PeerSet(peers[..0]) - {server} == {};
  }

  lemma OneMorePeer(peers: seq<PeerId>, i: nat, server: PeerId)
    requires i < |peers| && forall i, j | 0 <= i < j < |peers| :: peers[i] != peers[j]
    ensures peers[i] !in PeerSet(peers[..i])
    ensures PeerSet(peers[..i + 1]) - {server} ==
              if peers[i] == server then PeerSet(peers[..i]) - {server} else PeerSet(peers[..i]) - {server} + {peers[i]}
  {
    assert peers[..i + 1] == peers[..i] + [peers[i]];
  }

  lemma {:induction false} DistinctSize(peers: seq<PeerId>)
    requires forall i, j | 0 <= i < j < |peers| :: peers[i] != peers[j]
    ensures |PeerSet(peers)| == |peers|
  {
    if peers != [] {
      var n := |peers| - 1;
      DistinctSize(peers[..n]);
      assert PeerSet(peers) == PeerSet(peers[..n]) + {peers[n]};
      assert peers[n] !in peers[..n];
    }
  }

  /** The result of the search: the smallest of the stamps kept, those of `who`, or the current time if none is. */
  ghost predicate VouchedBy(peers: set<PeerId>, server: PeerId, stamps: map<PeerId, int>, now: int, t: int, kept: seq<int>,
                            who: seq<PeerId>) {
    && Keeps(kept, who, peers - {server}, |peers| / 2, stamps) && peers - {server} <= stamps.Keys
    && t == if kept == [] then now else kept[|kept| - 1]
  }

  /** A majority has been heard of since the result exactly when the leader is a member, or a peer that was not kept is
      as late as the last one that was. */
  lemma VouchedExactly(peers: set<PeerId>, server: PeerId, stamps: map<PeerId, int>, now: int, t: int, kept: seq<int>,
                       who: seq<PeerId>)
    requires VouchedBy(peers, server, stamps, now, t, kept, who)
    ensures IsMajority(HeardSince(peers, server, stamps, t), peers)
            <==> server in peers || exists p :: p in peers && p !in who && stamps[p] >= t
  {
    var w, heard := PeerSet(who), HeardSince(peers, server, stamps, t) * peers;
    HeardFacts(peers, server, stamps, now, t, kept, who);
    hide VouchedBy, HeardSince, Keeps;
    if server in peers {
      SubsetCardinality(w + {server}, heard);
    } else if p :| p in peers && p !in who && stamps[p] >= t {
      SubsetCardinality(w + {p}, heard);
    } else {
      SubsetCardinality(heard, w);
    }
  }

  /** The peers that were kept have all been heard of, and there are half as many as members. */
  lemma HeardFacts(peers: set<PeerId>, server: PeerId, stamps: map<PeerId, int>, now: int, t: int, kept: seq<int>,
                   who: seq<PeerId>)
    requires VouchedBy(peers, server, stamps, now, t, kept, who)
    ensures var w, heard := PeerSet(who), HeardSince(peers, server, stamps, t) * peers;
            && w <= heard && server !in w && |w| == |peers| / 2 && (server in peers ==> server in heard)
            && (forall p | p in heard && p != server :: p in stamps && stamps[p] >= t)
            && (forall p | p in peers && p != server && stamps[p] >= t :: p in heard)
  {
    DistinctSize(who);
    if server in peers {
      assert |peers - {server}| == |peers| - 1;
    } else {
      assert peers - {server} == peers;
    }
  }

  /** For a leader that is a member, a majority has been heard of since the result. */
  lemma VouchedByMajority(peers: set<PeerId>, server: PeerId, stamps: map<PeerId, int>, now: int, t: int)
    requires Vouched(peers, server, stamps, now, t) && server in peers && peers - {server} <= stamps.Keys
    ensures IsMajority(HeardSince(peers, server, stamps, t), peers)
  {
    var kept, who :| Keeps(kept, who, peers - {server}, |peers| / 2, stamps)
                     && t == if kept == [] then now else kept[|kept| - 1];
    VouchedExactly(peers, server, stamps, now, t, kept, who);
  }

  /** And since no later time, unless the leader is the only member: the result is the best one possible. */
  lemma VouchedIsLatest(peers: set<PeerId>, server: PeerId, stamps: map<PeerId, int>, now: int, t: int, later: int)
    requires Vouched(peers, server, stamps, now, t) && server in peers && peers - {server} <= stamps.Keys && later > t
    ensures IsMajority(HeardSince(peers, server, stamps, later), peers) <==> peers == {server}
  {
    var others := peers - {server};
    var kept, who :| Keeps(kept, who, others, |peers| / 2, stamps) && t == if kept == [] then now else kept[|kept| - 1];
    if others == {} {
      assert HeardSince(peers, server, stamps, later) * peers == peers == {server};
    } else {
      OnlyEarlier(peers, server, stamps, now, t, later, kept, who);
    }
  }

  lemma OnlyEarlier(peers: set<PeerId>, server: PeerId, stamps: map<PeerId, int>, now: int, t: int, later: int, kept: seq<int>,
                    who: seq<PeerId>)
    requires VouchedBy(peers, server, stamps, now, t, kept, who) && server in peers && peers - {server} != {} && later > t
    ensures !IsMajority(HeardSince(peers, server, stamps, later), peers)
  {
    assert |peers - {server}| == |peers| - 1;
    var w, heard := PeerSet(who), HeardSince(peers, server, stamps, later) * peers;
    DistinctSize(who);
    var last := who[|who| - 1];
    assert heard <= (w - {last}) + {server};
    SubsetCardinality(heard, (w - {last}) + {server});
  }

  /** For a leader outside the group it can fail: of three peers with different stamps only one has been heard of since
      the result. */
  lemma NotVouchedForOutsider() returns (peers: set<PeerId>, server: PeerId, stamps: map<PeerId, int>, t: int)
    ensures server !in peers && peers <= stamps.Keys && Vouched(peers, server, stamps, 0, t)
    ensures !IsMajority(HeardSince(peers, server, stamps, t), peers)
  {
    peers, server, stamps, t := {1, 2, 3}, 9, map[1 := 1, 2 := 2, 3 := 3], 3;
    assert peers - {server} == peers && |peers| == 3;
    var kept, who := [3], [3];
    assert Keeps(kept, who, peers - {server}, |peers| / 2, stamps);
    VouchedExactly(peers, server, stamps, 0, t, kept, who);
  }
}
