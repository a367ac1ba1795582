/** Majorities, joint quorums, and when quorums of two configurations must meet. */
module Quorum {
  import opened Types

  predicate IsMajority(granted: set<PeerId>, peers: set<PeerId>) {
    |granted * peers| >= |peers| / 2 + 1
  }

  /** What a ballot over `conf` asks for: a majority of the peers, and of the old peers when joint. */
  predicate IsQuorum(granted: set<PeerId>, conf: Config) {
    && IsMajority(granted, conf.peers)
    && (conf.Stable() || IsMajority(granted, conf.oldPeers))
  }

  /** Every quorum of `a` shares a peer with every quorum of `b`. */
  ghost predicate Near(a: Config, b: Config) {
    forall q, r :: IsQuorum(q, a) && IsQuorum(r, b) ==> q * r != {}
  }

  /** A configuration change of braft: no change, one peer, into a joint stage, or out of it. */
  predicate IsChange(a: Config, b: Config) {
    || a == b
    || (a.Stable() && b.Stable() && |b.peers - a.peers| + |a.peers - b.peers| <= 1)
    || (a.Stable() && b.oldPeers == a.peers)
    || (!a.Stable() && b == Config(a.peers, {}))
  }

  lemma CardinalitySplit(q: set<PeerId>, a: set<PeerId>)
    ensures |a| == |a * q| + |a - q|
  {
    assert a == (a * q) + (a - q);
  }

  lemma SubsetCardinality(a: set<PeerId>, b: set<PeerId>)
    requires a <= b
    ensures |a| <= |b|
  {
    assert b == a + (b - a);
  }

  /** Majorities of two peer sets that differ in at most one peer share a peer. */
  lemma MajoritiesMeet(q: set<PeerId>, a: set<PeerId>, r: set<PeerId>, b: set<PeerId>)
    requires |a - b| + |b - a| <= 1
    requires IsMajority(q, a) && IsMajority(r, b)
    ensures q * r != {}
  {
    var x, y := q * a, r * b;
    SubsetCardinality(x + y, a + b);
    CardinalitySplit(b, a);
    CardinalitySplit(a, b);
    assert a * b == b * a;
    assert a + b == (a - b) + b;
    assert |x + y| + |x * y| == |x| + |y|;
    assert x * y <= q * r;
  }

  /** Each step of a membership change keeps old and new quorums intersecting, for any group size. */
  lemma ChangeIsNear(a: Config, b: Config)
    requires IsChange(a, b)
    ensures Near(a, b)
  {
    forall q, r | IsQuorum(q, a) && IsQuorum(r, b)
      ensures q * r != {}
    {
      if a.Stable() && b.oldPeers == a.peers {
        assert a.peers != {};
        MajoritiesMeet(q, a.peers, r, b.oldPeers);
      } else {
        MajoritiesMeet(q, a.peers, r, b.peers);
      }
    }
  }

  lemma NearSymmetric(a: Config, b: Config)
    requires Near(a, b)
    ensures Near(b, a)
  {
    forall q, r | IsQuorum(q, b) && IsQuorum(r, a)
      ensures q * r != {}
    {
      assert r * q == q * r;
    }
  }
}
