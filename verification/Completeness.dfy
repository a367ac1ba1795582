/** What follows from the history alone: log matching, leader completeness and election safety, with
    configurations that change along the way. */
module Completeness {
  import opened Types
  import opened Quorum
  import opened NodeSpec
  import opened Protocol
  import opened Invariant

  // ---- log matching

  lemma LogOkPrefix(h: Hist, log: Log, k: nat)
    requires LogOk(h, log) && k <= |log|
    ensures LogOk(h, log[..k])
  {
    forall i | 0 <= i < k
      ensures EntryOk(h, log[..k], i)
    {
      assert EntryOk(h, log, i);
      assert log[..k][..i + 1] == log[..i + 1];
    }
  }

  /** Two logs that agree on the term at a position agree on everything up to it. */
  lemma Matching(h: Hist, a: Log, b: Log, i: nat)
    requires LogOk(h, a) && LogOk(h, b)
    requires i < |a| && i < |b| && a[i].term == b[i].term
    ensures a[..i + 1] == b[..i + 1]
  {
    assert EntryOk(h, a, i) && EntryOk(h, b, i);
  }

  /** Terms do not decrease along a log. */
  lemma TermsSorted(h: Hist, log: Log, i: nat, j: nat)
    requires HistOk(h) && LogOk(h, log)
    requires i <= j < |log|
    ensures log[i].term <= log[j].term
  {
    assert EntryOk(h, log, j);
    var t := log[j].term;
    assert ElectionOk(h, t);
    assert log[i] == log[..j + 1][i] == h.el[t].log[i];
    if i < |h.el[t].base| {
      assert h.el[t].base[i] == h.el[t].log[i];
    }
  }

  /** A log ends where some leader's log of the term of its last entry was. */
  lemma LogIsLeaderPrefix(h: Hist, log: Log)
    requires HistOk(h) && LogOk(h, log) && log != []
    ensures LastTerm(log) in h.el
    ensures |h.el[LastTerm(log)].base| < |log| <= |h.el[LastTerm(log)].log|
    ensures log == h.el[LastTerm(log)].log[..|log|]
    ensures h.el[LastTerm(log)].base <= log
  {
    var i := |log| - 1;
    assert EntryOk(h, log, i);
    assert log[..i + 1] == log;
    assert ElectionOk(h, LastTerm(log));
  }

  // ---- how far apart two configurations can be

  lemma {:induction false} ConfOfNoConf(initial: Config, log: Log, m: nat)
    requires m <= |log| && NoConf(log, m, |log|)
    ensures ConfOf(initial, log) == ConfOf(initial, log[..m])
    decreases |log|
  {
    if m == |log| {
      assert log[..m] == log;
    } else {
      var shorter := log[..|log| - 1];
      ConfOfNoConf(initial, shorter, m);
      assert shorter[..m] == log[..m];
    }
  }

  /** The committed prefix `c` ends inside `log`, beyond position `m` and before its end. */
  ghost predicate CommitWithin(h: Hist, log: Log, m: nat, c: Commit) {
    && c in h.commits && c.term in h.el && m < c.upto < |log|
    && c.upto <= |h.el[c.term].log|
    && h.el[c.term].log[..c.upto] <= log
  }

  /** A single configuration change at `q` separates position `m` from the end of `log`, made by a leader
      whose first entry lies before `m`. */
  ghost predicate OneChange(h: Hist, log: Log, m: nat, q: nat) {
    && m <= q < |log| && log[q].payload.Conf?
    && log[q].term in h.el && |h.el[log[q].term].base| < m
    && ConfOf(h.initial, log) == log[q].payload.conf
    && Near(ConfOf(h.initial, log[..m]), ConfOf(h.initial, log))
  }

  /** Between two points of a log the configuration is unchanged, or changed once, or a configuration in
      between was committed. */
  lemma {:induction false} ConfStep(h: Hist, log: Log, m: nat)
    requires HistOk(h) && LogOk(h, log) && m <= |log|
    ensures || ConfOf(h.initial, log) == ConfOf(h.initial, log[..m])
            || (exists q :: OneChange(h, log, m, q))
            || (exists c :: CommitWithin(h, log, m, c))
    decreases |log|
  {
    if m == |log| {
      assert log[..m] == log;
      return;
    }
    var p := |log| - 1;
    var shorter := log[..p];
    assert shorter[..m] == log[..m];
    LogOkPrefix(h, log, p);
    ConfStep(h, shorter, m);
    if c :| CommitWithin(h, shorter, m, c) {
      assert CommitWithin(h, log, m, c);
      return;
    }
    if !log[p].payload.Conf? {
      if q: nat :| OneChange(h, shorter, m, q) {
        assert OneChange(h, log, m, q);
      }
      return;
    }
    ConfStepAtConf(h, log, m);
  }

  /** The rule for configuration entries, read off any log that ends with one. */
  lemma ConfEntryRule(h: Hist, log: Log)
    requires HistOk(h) && LogOk(h, log) && log != [] && log[|log| - 1].payload.Conf?
    ensures LastTerm(log) in h.el && |h.el[LastTerm(log)].base| < |log|
    ensures IsChange(ConfOf(h.initial, log[..|log| - 1]), log[|log| - 1].payload.conf)
    ensures || log[|log| - 1].payload.conf == ConfOf(h.initial, log[..|log| - 1])
            || exists c :: c in h.commits && RuleCommit(h, log, c)
  {
    var p := |log| - 1;
    var w := log[p].term;
    LogIsLeaderPrefix(h, log);
    assert ElectionOk(h, w) && ConfEntryOk(h, w, p);
    var e := h.el[w];
    assert e.log[..p] == log[..p];
    assert e.log[p] == log[p];
    if p > |e.base| {
      var c :| c in h.commits && ConfCommitted(h, w, p, c);
      assert e.log[..c.upto] == log[..c.upto];
      assert RuleCommit(h, log, c);
    }
  }

  /** `c` committed the configuration before the last entry of `log`, in the term of that entry. */
  ghost predicate RuleCommit(h: Hist, log: Log, c: Commit)
    requires log != []
  {
    && c.term == LastTerm(log) && c.term in h.el
    && |h.el[c.term].base| < c.upto <= |h.el[c.term].log|
    && c.upto < |log| && NoConf(log, c.upto, |log| - 1)
    && h.el[c.term].log[..c.upto] <= log
  }

  /** The step of `ConfStep` over a configuration entry. */
  lemma ConfStepAtConf(h: Hist, log: Log, m: nat)
    requires HistOk(h) && LogOk(h, log) && m < |log| && log[|log| - 1].payload.Conf?
    requires var shorter := log[..|log| - 1];
             || ConfOf(h.initial, shorter) == ConfOf(h.initial, shorter[..m])
             || (exists q :: OneChange(h, shorter, m, q))
    ensures || ConfOf(h.initial, log) == ConfOf(h.initial, log[..m])
            || (exists q :: OneChange(h, log, m, q))
            || (exists c :: CommitWithin(h, log, m, c))
  {
    var p := |log| - 1;
    var shorter := log[..p];
    assert shorter[..m] == log[..m];
    ConfEntryRule(h, log);
    if log[p].payload.conf == ConfOf(h.initial, shorter) {
      if q: nat :| OneChange(h, shorter, m, q) {
        assert OneChange(h, log, m, q);
      }
    } else {
      var c :| c in h.commits && RuleCommit(h, log, c);
      if m < c.upto {
        assert CommitWithin(h, log, m, c);
      } else {
        ConfOfNoConf(h.initial, shorter, m);
        ChangeIsNear(ConfOf(h.initial, shorter), log[p].payload.conf);
        assert OneChange(h, log, m, p);
      }
    }
  }

  /** The length of the longest common prefix. */
  function Fork(a: Log, b: Log): (f: nat)
    ensures f <= |a| && f <= |b| && a[..f] == b[..f]
    ensures f < |a| && f < |b| ==> a[f] != b[f]
  {
    if a == [] || b == [] || a[0] != b[0] then 0
    else
      var f := 1 + Fork(a[1..], b[1..]);
      assert a[..f] == [a[0]] + a[1..][..f - 1];
      assert b[..f] == [b[0]] + b[1..][..f - 1];
      f
  }

  /** `a` holds a committed prefix, ending before the end of `a`, that `b` does not hold. */
  ghost predicate Missing(h: Hist, a: Log, b: Log, c: Commit) {
    && c in h.commits && c.term in h.el && c.upto <= |h.el[c.term].log| && c.upto < |a|
    && h.el[c.term].log[..c.upto] <= a && !(h.el[c.term].log[..c.upto] <= b)
  }

  lemma CommitBeyondForkIsMissing(h: Hist, a: Log, b: Log, c: Commit)
    requires CommitWithin(h, a, Fork(a, b), c)
    ensures Missing(h, a, b, c)
  {
    var f := Fork(a, b);
    var p := h.el[c.term].log[..c.upto];
    assert p[f] == a[f];
  }

  /** When the leaders of both entries started before the fork, the term of the first one is larger. */
  lemma TermAfterFork(h: Hist, a: Log, b: Log, q: nat, r: nat)
    requires HistOk(h) && LogOk(h, a) && LogOk(h, b)
    requires Fork(a, b) <= q < |a| && Fork(a, b) <= r < |b|
    requires b[r].term in h.el && |h.el[b[r].term].base| < Fork(a, b)
    ensures a[q].term > b[r].term
  {
    hide HistOk, LogOk;
    var f := Fork(a, b);
    FirstOfTerm(h, b, r);
    // the first entry of the term of b[r] lies before the fork, so both logs have it
    var i := |h.el[b[r].term].base|;
    assert a[i] == a[..f][i] == b[..f][i] == b[i];
    TermsSorted(h, a, i, q);
    if a[q].term == b[r].term {
      SameTermAgrees(h, a, b, q, r, f);
    }
  }

  /** A log that holds an entry of a term holds the first entry of that term. */
  lemma FirstOfTerm(h: Hist, log: Log, r: nat)
    requires HistOk(h) && LogOk(h, log) && r < |log|
    ensures log[r].term in h.el && |h.el[log[r].term].base| <= r
    ensures log[|h.el[log[r].term].base|].term == log[r].term
  {
    assert EntryOk(h, log, r);
    var w := log[r].term;
    var i := |h.el[w].base|;
    assert ElectionOk(h, w);
    assert log[i] == log[..r + 1][i] == h.el[w].log[i];
  }

  lemma SameTermAgrees(h: Hist, a: Log, b: Log, q: nat, r: nat, f: nat)
    requires LogOk(h, a) && LogOk(h, b) && f <= q < |a| && f <= r < |b| && a[q].term == b[r].term
    ensures a[f] == b[f]
  {
    assert EntryOk(h, a, q) && EntryOk(h, b, r);
    assert a[f] == a[..q + 1][f] && b[f] == b[..r + 1][f];
  }

  /** Any two logs either have configurations whose quorums meet, or one of them lacks a committed prefix
      of the other. */
  lemma ConfPair(h: Hist, a: Log, b: Log)
    requires HistOk(h) && LogOk(h, a) && LogOk(h, b)
    ensures || Near(ConfOf(h.initial, a), ConfOf(h.initial, b))
            || (exists c :: Missing(h, a, b, c))
            || (exists c :: Missing(h, b, a, c))
  {
    var f := Fork(a, b);
    ForkSymmetric(a, b);
    ConfStep(h, a, f);
    ConfStep(h, b, f);
    if c :| CommitWithin(h, a, f, c) {
      CommitBeyondForkIsMissing(h, a, b, c);
    } else if c :| CommitWithin(h, b, f, c) {
      CommitBeyondForkIsMissing(h, b, a, c);
    } else if q: nat :| OneChange(h, a, f, q) {
      if r: nat :| OneChange(h, b, f, r) {
        // both changed after the fork: each leader's term would have to be larger than the other's
        TermAfterFork(h, a, b, q, r);
        TermAfterFork(h, b, a, r, q);
      } else {
        NearSymmetric(ConfOf(h.initial, b), ConfOf(h.initial, a));
      }
    } else if r: nat :| OneChange(h, b, f, r) {
    } else {
      ChangeIsNear(ConfOf(h.initial, a), ConfOf(h.initial, b));
    }
  }

  lemma {:induction false} ForkSymmetric(a: Log, b: Log)
    ensures Fork(a, b) == Fork(b, a)
    decreases |a|
  {
    if a != [] && b != [] && a[0] == b[0] {
      ForkSymmetric(a[1..], b[1..]);
    }
  }

  // ---- leader completeness

  /** What a candidate has when it wins `term`: votes of a quorum of its own configuration, each given to a
      log of this candidate of which nothing was given up since. */
  ghost predicate Wins(h: Hist, term: nat, cand: PeerId, base: Log, voters: set<PeerId>) {
    && LogOk(h, base) && TermsBelow(base, term)
    && IsQuorum(voters, ConfOf(h.initial, base))
    && (forall v {:trigger VoteFor(h, v, term, cand)} | v in voters :: VoteFor(h, v, term, cand))
    && (forall v {:trigger VoteFor(h, v, term, cand)} | v in voters && VoteFor(h, v, term, cand) ::
          Keeps(h, h.votes[Key(v, term)].candLog, base, term))
  }

  lemma ElectionWins(h: Hist, t: nat)
    requires HistOk(h) && t in h.el
    ensures Wins(h, t, h.el[t].leader, h.el[t].base, h.el[t].voters)
    ensures AllEarly(h, t, h.el[t].voters)
  {
    var e := h.el[t];
    assert ElectionOk(h, t);
    LogOkPrefix(h, e.log, |e.base|);
    forall v | v in e.voters
      ensures VoteFor(h, v, t, e.leader) && Keeps(h, h.votes[Key(v, t)].candLog, e.base, t)
    {
      assert VoteFor(h, v, t, e.leader);
    }
  }

  /** The prefix that a commit made permanent. */
  ghost function Prefix(h: Hist, c: Commit): Log
    requires c in h.commits && HistOk(h)
    ensures c.term in h.el && |h.el[c.term].base| < c.upto <= |h.el[c.term].log|
    ensures Prefix(h, c) == h.el[c.term].log[..c.upto]
    ensures LastTerm(Prefix(h, c)) == c.term && h.el[c.term].base <= Prefix(h, c)
    ensures LogOk(h, Prefix(h, c))
  {
    assert CommitOk(h, c);
    assert ElectionOk(h, c.term);
    LogOkPrefix(h, h.el[c.term].log, c.upto);
    h.el[c.term].log[..c.upto]
  }

  /** Every leader elected between the commit and `term` has the committed prefix. */
  ghost predicate CompleteBelow(h: Hist, p: Log, term: nat)
    requires p != []
  {
    forall u {:trigger h.el[u].base} | u in h.el && LastTerm(p) < u < term :: p <= h.el[u].base
  }

  /** A log at least as up to date as one that holds `p` holds `p`, when the leaders in between did. */
  lemma UpToDateHolds(h: Hist, p: Log, voterLog: Log, candLog: Log, term: nat)
    requires HistOk(h) && LogOk(h, p) && LogOk(h, voterLog) && LogOk(h, candLog)
    requires p != [] && p <= voterLog && LastId(candLog).AtLeast(LastId(voterLog))
    requires TermsBelow(candLog, term) && CompleteBelow(h, p, term)
    ensures p <= candLog
  {
    TermsSorted(h, voterLog, |p| - 1, |voterLog| - 1);
    var t, u := LastTerm(p), LastTerm(candLog);
    assert voterLog[|p| - 1] == p[|p| - 1];
    LogIsLeaderPrefix(h, p);
    assert ElectionOk(h, t);
    LogIsLeaderPrefix(h, voterLog);
    assert ElectionOk(h, LastTerm(voterLog));
    LogIsLeaderPrefix(h, candLog);
    if u == t {
      assert LastTerm(voterLog) == t;
      assert candLog[..|p|] == h.el[t].log[..|p|];
    } else {
      assert p <= h.el[u].base;
      assert h.el[u].base <= candLog;
    }
  }

  /** A quorum that acknowledged a committed prefix and a quorum that voted share a peer, so the winner
      holds the prefix. */
  lemma CommonVoter(h: Hist, c: Commit, term: nat, cand: PeerId, base: Log, voters: set<PeerId>)
    requires HistOk(h) && c in h.commits && c.term < term && Wins(h, term, cand, base, voters)
    requires CompleteBelow(h, Prefix(h, c), if AllEarly(h, term, voters) then term else term + 1)
    requires Near(ConfOf(h.initial, Prefix(h, c)), ConfOf(h.initial, base))
    ensures Prefix(h, c) <= base
  {
    var p := Prefix(h, c);
    assert CommitOk(h, c);
    var v :| v in c.quorum * voters;
    assert VoteFor(h, v, term, cand) && Acked(h, v, c.term, c.upto);
    var vote := h.votes[Key(v, term)];
    assert VoteOk(h, Key(v, term));
    assert AckOk(h, Key(v, c.term));
    var acked := AckedLog(h, Key(v, c.term));
    assert KeepsAt(h, acked, vote.voterLog, if vote.late then term + 1 else term, c.upto);
    assert acked[..c.upto] == p;
    assert p <= vote.voterLog;
    UpToDateHolds(h, p, vote.voterLog, vote.candLog, term);
    assert KeepsAt(h, vote.candLog, base, term, |p|);
    assert vote.candLog[..|p|] == p;
  }

  lemma LateVote(h: Hist, term: nat, voters: set<PeerId>)
    requires HistOk(h) && !AllEarly(h, term, voters)
    ensures term in h.el
  {
    var v :| v in voters && Key(v, term) in h.votes && h.votes[Key(v, term)].late;
    assert VoteOk(h, Key(v, term));
  }

  /** Leader completeness: whoever wins a later term already holds every committed prefix, even when the
      configuration has changed any number of times in between. */
  lemma {:induction false} LeaderCompleteness(h: Hist, c: Commit, term: nat, cand: PeerId, base: Log, voters: set<PeerId>)
    requires HistOk(h) && c in h.commits && c.term < term && Wins(h, term, cand, base, voters)
    ensures Prefix(h, c) <= base
    decreases term, !AllEarly(h, term, voters), c.upto
  {
    hide HistOk, ConfOf, Near, IsQuorum;
    var p := Prefix(h, c);
    forall u | u in h.el && c.term < u < term
      ensures p <= h.el[u].base
    {
      ElectionWins(h, u);
      LeaderCompleteness(h, c, u, h.el[u].leader, h.el[u].base, h.el[u].voters);
    }
    if !AllEarly(h, term, voters) {
      // a late vote came after the term got its leader, whose own votes were early
      LateVote(h, term, voters);
      ElectionWins(h, term);
      LeaderCompleteness(h, c, term, h.el[term].leader, h.el[term].base, h.el[term].voters);
    }
    ConfPair(h, p, base);
    if Near(ConfOf(h.initial, p), ConfOf(h.initial, base)) {
      CommonVoter(h, c, term, cand, base, voters);
    } else if d :| Missing(h, p, base, d) {
      // a shorter committed prefix is missing too: excluded by induction
      TermsSorted(h, p, d.upto - 1, |p| - 1);
      assert p[d.upto - 1] == Prefix(h, d)[d.upto - 1];
      LeaderCompleteness(h, d, term, cand, base, voters);
    } else {
      // the winner holds a committed prefix that p does not
      var d :| Missing(h, base, p, d);
      var r := Prefix(h, d);
      assert base[d.upto - 1] == r[d.upto - 1];
      if d.term < c.term {
        ElectionWins(h, c.term);
        LeaderCompleteness(h, d, c.term, h.el[c.term].leader, h.el[c.term].base, h.el[c.term].voters);
      } else if d.term == c.term {
        assert p == r[..|p|];
      } else {
        assert p <= h.el[d.term].base <= r;
      }
    }
  }

  /** Election safety: two candidates that win the same term are the same node. */
  lemma ElectionSafety(h: Hist, term: nat, c1: PeerId, base1: Log, voters1: set<PeerId>,
                       c2: PeerId, base2: Log, voters2: set<PeerId>)
    requires HistOk(h)
    requires Wins(h, term, c1, base1, voters1) && Wins(h, term, c2, base2, voters2)
    ensures c1 == c2
  {
    ConfPair(h, base1, base2);
    if Near(ConfOf(h.initial, base1), ConfOf(h.initial, base2)) {
      var v :| v in voters1 * voters2;
      assert VoteFor(h, v, term, c1) && VoteFor(h, v, term, c2);
    } else if d :| Missing(h, base1, base2, d) {
      assert base1[d.upto - 1] == Prefix(h, d)[d.upto - 1];
      LeaderCompleteness(h, d, term, c2, base2, voters2);
    } else {
      var d :| Missing(h, base2, base1, d);
      assert base2[d.upto - 1] == Prefix(h, d)[d.upto - 1];
      LeaderCompleteness(h, d, term, c1, base1, voters1);
    }
  }

  // ---- committed prefixes

  /** The log of every leader from the term of a commit onwards starts with the committed prefix. */
  lemma LeaderHoldsCommit(h: Hist, c: Commit, t: nat)
    requires HistOk(h) && c in h.commits && t in h.el && c.term <= t
    ensures Prefix(h, c) <= h.el[t].log
    ensures c.term < t ==> Prefix(h, c) <= h.el[t].base
  {
    assert ElectionOk(h, t);
    if c.term < t {
      ElectionWins(h, t);
      LeaderCompleteness(h, c, t, h.el[t].leader, h.el[t].base, h.el[t].voters);
    }
  }

  /** Of any two commits, one covers the prefix of the other. */
  lemma CommitsAgree(h: Hist, c: Commit, d: Commit, k: nat)
    requires HistOk(h) && c in h.commits && d in h.commits
    requires k <= c.upto && k <= d.upto
    ensures Prefix(h, c)[..k] == Prefix(h, d)[..k]
  {
    var p, q := Prefix(h, c), Prefix(h, d);
    if c.term <= d.term {
      LeaderHoldsCommit(h, c, d.term);
    } else {
      LeaderHoldsCommit(h, d, c.term);
    }
  }

  /** Two logs agree on every index that both know to be committed. */
  lemma CoveredAgree(h: Hist, a: Log, b: Log, k: nat, i: nat, j: nat, t: nat, u: nat)
    requires HistOk(h) && Covered(h, a, i, t) && Covered(h, b, j, u)
    requires k <= i && k <= j
    ensures a[..k] == b[..k]
  {
    if k > 0 {
      var c :| c in h.commits && CoveredBy(h, a, i, t, c);
      var d :| d in h.commits && CoveredBy(h, b, j, u, d);
      CommitsAgree(h, c, d, k);
      assert a[..k] == a[..i][..k] == Prefix(h, c)[..k];
      assert b[..k] == b[..j][..k] == Prefix(h, d)[..k];
    }
  }

  /** What is covered by a commit of a term up to `u` is in the log of every leader of `u` or later. */
  lemma CoveredInLeader(h: Hist, log: Log, upto: nat, u: nat, t: nat)
    requires HistOk(h) && Covered(h, log, upto, u) && t in h.el && u <= t
    ensures log[..upto] <= h.el[t].log
    ensures u < t ==> log[..upto] <= h.el[t].base
  {
    if upto > 0 {
      var c :| c in h.commits && CoveredBy(h, log, upto, u, c);
      LeaderHoldsCommit(h, c, t);
      assert log[..upto] == Prefix(h, c)[..upto];
    }
  }
}
