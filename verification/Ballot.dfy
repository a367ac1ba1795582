/** One ballot: the peers of a configuration, which of them have granted, and how many grants are missing. */
module Ballots {
  import opened Types
  import opened Quorum
  import opened BallotSpec

  datatype UnfoundPeer = UnfoundPeer(id: PeerId, found: bool)

  /** Where `Grant` found the peer last time, -1 when it did not. */
  datatype PosHint = PosHint(pos0: int, pos1: int)

  const NoHint := PosHint(-1, -1)

  /** `list` holds the members of `peers` once each, marked exactly when they are in `granted`. */
  ghost predicate Lists(list: seq<UnfoundPeer>, peers: set<PeerId>, granted: set<PeerId>) {
    && (forall i, j | 0 <= i < j < |list| :: list[i].id != list[j].id)
    && (forall i | 0 <= i < |list| :: list[i].id in peers && (list[i].found <==> list[i].id in granted))
    && (forall p | p in peers :: exists i :: 0 <= i < |list| && list[i].id == p)
    && |list| == |peers|
  }

  /** How many grants of `peers` are missing; 0 or less once there is a majority. */
  function Missing(granted: set<PeerId>, peers: set<PeerId>): int {
    |peers| / 2 + 1 - |granted * peers|
  }

  /** The position of `peer`, or the end of the list. */
  method FindPeer(peer: PeerId, peers: seq<UnfoundPeer>, posHint: int) returns (pos: nat)
    ensures pos <= |peers|
    ensures pos < |peers| ==> peers[pos].id == peer
    ensures pos == |peers| ==> forall i | 0 <= i < |peers| :: peers[i].id != peer
  {
    if posHint < 0 || posHint >= |peers| || peers[posHint].id != peer {
      pos := 0;
      while pos < |peers|
        invariant pos <= |peers|
        invariant forall i | 0 <= i < pos :: peers[i].id != peer
      {
        if peers[pos].id == peer {
          return;
        }
        pos := pos + 1;
      }
    } else {
      pos := posHint;
    }
  }

  /** A list of the members of `peers`, none of them found. */
  method ListPeers(peers: set<PeerId>) returns (list: seq<UnfoundPeer>)
    ensures Lists(list, peers, {})
  {
    list := [];
    var rest := peers;
    while rest != {}
      invariant rest <= peers && Lists(list, peers - rest, {})
      decreases |rest|
    {
      var p :| p in rest;
      AddPeer(list, peers - rest, p);
      assert peers - (rest - {p}) == (peers - rest) + {p};
      list, rest := list + [UnfoundPeer(p, false)], rest - {p};
    }
  }

  lemma AddPeer(list: seq<UnfoundPeer>, peers: set<PeerId>, p: PeerId)
    requires Lists(list, peers, {}) && p !in peers
    ensures Lists(list + [UnfoundPeer(p, false)], peers + {p}, {})
  {
    var longer := list + [UnfoundPeer(p, false)];
    forall q | q in peers + {p}
      ensures exists i :: 0 <= i < |longer| && longer[i].id == q
    {
      if q == p {
        assert longer[|list|].id == q;
      } else {
        var i :| 0 <= i < |list| && list[i].id == q;
        assert longer[i].id == q;
      }
    }
  }

  /** Marking the position of `peer` counts its grant, once. */
  lemma MarkPeer(list: seq<UnfoundPeer>, peers: set<PeerId>, granted: set<PeerId>, pos: nat, peer: PeerId)
    requires Lists(list, peers, granted) && pos < |list| && list[pos].id == peer
    ensures Lists(list[pos := UnfoundPeer(peer, true)], peers, granted + {peer})
    ensures Missing(granted + {peer}, peers) == Missing(granted, peers) - if list[pos].found then 0 else 1
  {
    var marked := list[pos := UnfoundPeer(peer, true)];
    forall q | q in peers
      ensures exists i :: 0 <= i < |marked| && marked[i].id == q
    {
      var i :| 0 <= i < |list| && list[i].id == q;
      assert marked[i].id == q;
    }
    if list[pos].found {
      assert granted + {peer} == granted;
    } else {
      assert (granted + {peer}) * peers == granted * peers + {peer};
    }
  }

  /** A peer outside the list changes nothing. */
  lemma StrangerPeer(list: seq<UnfoundPeer>, peers: set<PeerId>, granted: set<PeerId>, peer: PeerId)
    requires Lists(list, peers, granted) && forall i | 0 <= i < |list| :: list[i].id != peer
    ensures Lists(list, peers, granted + {peer}) && Missing(granted + {peer}, peers) == Missing(granted, peers)
  {
    assert peer !in peers;
    assert (granted + {peer}) * peers == granted * peers;
  }

  /** Finds the peer in one of the two lists and marks it; `counted` tells whether it was not marked before. */
  method MarkIn(list: seq<UnfoundPeer>, peer: PeerId, posHint: int, ghost peers: set<PeerId>, ghost granted: set<PeerId>)
    returns (marked: seq<UnfoundPeer>, pos: int, counted: bool)
    requires Lists(list, peers, granted)
    ensures Lists(marked, peers, granted + {peer})
    ensures Missing(granted + {peer}, peers) == Missing(granted, peers) - if counted then 1 else 0
  {
    marked, pos, counted := list, -1, false;
    var found := FindPeer(peer, list, posHint);
    if found < |list| {
      MarkPeer(list, peers, granted, found, peer);
      if !list[found].found {
        marked, counted := list[found := UnfoundPeer(peer, true)], true;
      } else {
        assert list[found := UnfoundPeer(peer, true)] == list;
      }
      pos := found;
    } else {
      StrangerPeer(list, peers, granted, peer);
    }
  }

  lemma NobodyListed(list: seq<UnfoundPeer>, peers: set<PeerId>, granted: set<PeerId>, peer: PeerId)
    requires Lists(list, peers, granted) && list == []
    ensures peers == {} && Lists(list, peers, granted + {peer})
  {
  }

  lemma SomebodyListed(list: seq<UnfoundPeer>, peers: set<PeerId>, granted: set<PeerId>)
    requires Lists(list, peers, granted) && list != []
    ensures peers != {}
  {
    assert list[0].id in peers;
  }

  /** Before the first grant a whole majority is missing. */
  lemma NothingMissing(list: seq<UnfoundPeer>, peers: set<PeerId>)
    requires Lists(list, peers, {})
    ensures Missing({}, peers) == |list| / 2 + 1
  {
    assert {} * peers == {};
  }

  class Ballot {
    var peers: seq<UnfoundPeer>
    var quorum: int
    var oldPeers: seq<UnfoundPeer>
    var oldQuorum: int
    ghost var view: BallotState

    ghost predicate Valid()
      reads this
    {
      && Lists(peers, view.conf.peers, view.granted) && quorum == Missing(view.granted, view.conf.peers)
      && Lists(oldPeers, view.conf.oldPeers, view.granted)
      && oldQuorum == if view.conf.Stable() then 0 else Missing(view.granted, view.conf.oldPeers)
    }

    /** The old peers are given only for a joint configuration. */
    constructor (conf: Config)
      ensures Valid() && view == BallotState(conf, {})
    {
      hide Lists, Missing;
      var list := ListPeers(conf.peers);
      var oldList := ListPeers(conf.oldPeers);
      NothingMissing(list, conf.peers);
      NothingMissing(oldList, conf.oldPeers);
      peers, quorum := list, |list| / 2 + 1;
      oldPeers, oldQuorum := oldList, if conf.Stable() then 0 else |oldList| / 2 + 1;
      view := BallotState(conf, {});
    }

    /** Whatever the hint, the peer is counted once in each of the two lists it is in. */
    method Grant(peer: PeerId, hint: PosHint) returns (next: PosHint)
      requires Valid()
      modifies this
      ensures Valid() && view == old(view).Grant(peer)
    {
      hide Lists, Missing;
      var pos0, pos1, counted := -1, -1, false;
      peers, pos0, counted := MarkIn(peers, peer, hint.pos0, view.conf.peers, view.granted);
      if counted {
        quorum := quorum - 1;
      }
      if |oldPeers| == 0 {
        NobodyListed(oldPeers, view.conf.oldPeers, view.granted, peer);
        view := view.Grant(peer);
        return PosHint(pos0, pos1);
      }
      oldPeers, pos1, counted := MarkIn(oldPeers, peer, hint.pos1, view.conf.oldPeers, view.granted);
      SomebodyListed(old(oldPeers), view.conf.oldPeers, view.granted);
      if counted {
        oldQuorum := oldQuorum - 1;
      }
      view := view.Grant(peer);
      next := PosHint(pos0, pos1);
    }

    /** The counters reach zero exactly when the grants are a quorum of the configuration. */
    predicate Granted()
      requires Valid()
      reads this
      ensures Granted() <==> IsQuorum(view.granted, view.conf)
    {
      quorum <= 0 && oldQuorum <= 0
    }
  }
}
