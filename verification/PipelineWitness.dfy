/** A run in which the closure of a task is delivered, and two commit notices that do not merge exactly. */
module PipelineWitness {
  import opened Types
  import opened Quorum
  import opened BallotSpec
  import opened ClosureQueues
  import opened Pipeline
  import F = FsmCallers

  const Alone := Config({1}, {})

  /** The acknowledgement of the only member commits the entry. */
  lemma Granted()
    ensures CommitAt(Box(1, [BallotState(Alone, {})]), 1, 1, 1).committed == 1
  {
    var ballots := GrantRange([BallotState(Alone, {})], 0, 1, 1);
    assert {} + {1} == {1} && {1} * {1} == {1};
    assert ballots[0].Granted();
    assert LastGranted(ballots, 0, 1) == 1;
  }

  /** A leader appends a task, its entry is committed and applied, and the closure runs with it. */
  lemma SomethingIsDelivered() returns (run: seq<Pipe>)
    ensures IsRun(run) && run[|run| - 1].delivered == [Delivery(7, 1)]
  {
    hide CommitAt;
    var p1 := Do(Start, Lead(1));
    var p2 := Do(p1, Append(Alone, Some(7)));
    assert p2.box == Box(1, [BallotState(Alone, {})]) && p2.waiting == Waiting(1, [Some(7)]);
    Granted();
    var p3 := Do(p2, Grant(1, 1, 1));
    assert p3.waiting == p2.waiting && 1 in p3.notices;
    var p4 := Do(p3, Apply(1, 2));
    Popping(p3.waiting);
    assert Next(Start, p1) && Next(p1, p2) && Next(p2, p3) && Next(p3, p4);
    run := [Start, p1, p2, p3, p4];
  }

  lemma Popping(w: Waiting)
    requires w == Waiting(1, [Some(7)])
    ensures PopUntil(w, 1) == Some(Popped(Waiting(2, []), [Some(7)], 1))
    ensures Deliveries([Some(7)][..1], 1) == [Delivery(7, 1)]
  {
    assert [Some(7)][..1] == [Some(7)] && [Some(7)][1..] == [];
  }

  /** The state machine fails on the only entry: processed one after the other, the notices for 1 and 2 leave the applied
      index at 1; merged they leave it at 2. */
  lemma MergedNoticesDiffer() returns (log: Log, user: F.User, s: F.Fsm)
    ensures F.AfterCommitted(log, user, F.AfterCommitted(log, user, s, 1), 2).applied.index == 1
    ensures F.AfterCommitted(log, user, s, 2).applied.index == 2
  {
    log, user, s := [Entry(1, Data(0))], F.User({1}, i => 0), F.Fsm(LogId(0, 0), false, []);
    assert F.Fails(log, user, 1);
  }
}
