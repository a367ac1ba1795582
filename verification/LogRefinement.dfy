/** The log manager resolves requests as the node of the protocol does. */
module LogRefinement {
  import opened Types
  import opened NodeSpec
  import opened LogStorages
  import opened LogManagerSpec

  /** The log of the protocol that a log without compaction stands for. */
  function Abstract(es: seq<LogEntry>): (r: Log)
    ensures |r| == |es|
  {
    seq(|es|, k requires 0 <= k < |es| => Entry(es[k].id.term, es[k].payload))
  }

  lemma {:induction false} AgreeingIsFirstConflict(log: Store, prev: nat, es: seq<LogEntry>)
    requires log.Valid() && log.first == 1 && Numbered(es, prev + 1)
    requires forall k {:trigger es[k]} | 0 <= k < |es| :: es[k].id.term > 0
    ensures Agreeing(log, NoId, NoId, es) == FirstConflict(Abstract(log.entries), prev, Abstract(es))
    decreases |es|
  {
    if es != [] {
      assert Abstract(es)[1..] == Abstract(es[1..]);
      assert forall k | 0 <= k < |es| - 1 :: es[1..][k] == es[k + 1];
      AgreeingIsFirstConflict(log, prev + 1, es[1..]);
    }
  }

  /** Without snapshots, the log after a follower's request is the one the protocol's node has. */
  lemma ResolvedIsResolve(log: Store, prev: nat, es: seq<LogEntry>)
    requires log.Valid() && log.first == 1 && Numbered(es, prev + 1) && prev <= log.Last()
    requires forall k {:trigger es[k]} | 0 <= k < |es| :: es[k].id.term > 0
    ensures Abstract(Resolved(log, NoId, NoId, es).entries) == Resolve(Abstract(log.entries), prev, Abstract(es))
  {
    AgreeingIsFirstConflict(log, prev, es);
    var n := Agreeing(log, NoId, NoId, es);
    if n < |es| {
      AgreeingFacts(log, NoId, NoId, es, prev + 1);
      assert es[n].id.index == prev + 1 + n;
      assert Resolved(log, NoId, NoId, es).entries == log.entries[..prev + n] + es[n..];
    }
  }

  /** A leader's entries go behind its log. */
  lemma ExtendedIsLeaderAppend(log: Store, es: seq<LogEntry>)
    requires es != [] && es[0].id.index == 0
    ensures Abstract(Extended(log, NoId, NoId, es).entries) == Abstract(log.entries) + Abstract(es)
  {
  }
}
