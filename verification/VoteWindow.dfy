/** The vote with the window in which the node mutex is not held: the last id of the log is read first, and the vote is
    given later, after comparing the terms again but not the ids. */
module VoteWindow {
  import opened Types
  import opened Quorum
  import opened BallotSpec
  import opened NodeSpec
  import opened Protocol
  import opened Invariant
  import opened StepsNode
  import Safety

  /** The node was in `term` when it left its mutex, and found `id` at the end of its log. */
  datatype Reading = Reading(n: PeerId, term: nat, id: LogId)

  datatype Window = Window(s: State, readings: set<Reading>)

  /** `Plain` takes a step of the protocol, a vote without a window among them. */
  datatype Move =
    | Plain(step: Step)
    | Read(n: PeerId, id: LogId)
    | GiveVote(r: Reading, m: Message, candLog: Log)

  predicate Crashes(step: Step) {
    step.CrashStep? || step.ElectCrashStep?
  }

  predicate Possible(w: Window, move: Move) {
    match move
    case Plain(step) => Enabled(w.s, step)
    case Read(n, id) => n in w.s.nodes && w.s.nodes[n].queue == [] && id.AtLeast(LastId(w.s.nodes[n].durable))
    case GiveVote(r, m, candLog) =>
      && r in w.readings && r.n in w.s.nodes && w.s.nodes[r.n].term == r.term
      && m in w.s.msgs && m.VoteReq? && m.cand != w.s.nodes[r.n].id && m.term >= r.term
      && Candidacy(m.term, m.cand, candLog) in w.s.h.cands && LastId(candLog) == m.last
  }

  function Take(w: Window, move: Move): Window
    requires Possible(w, move)
  {
    match move
    case Plain(step) =>
      Window(Do(w.s, step), set r | r in w.readings && (r.n != step.n || !Crashes(step)))
    case Read(n, id) => w.(readings := w.readings + {Reading(n, w.s.nodes[n].term, id)})
    case GiveVote(r, m, candLog) =>
      var e := AnswerVote(w.s.nodes[r.n], w.s.h, m, candLog, r.id);
      Window(State(w.s.nodes[r.n := e.nd], w.s.msgs + e.sent, e.h), w.readings - {r})
  }

  ghost predicate Moves(w: Window, v: Window) {
    exists move :: Possible(w, move) && v == Take(w, move)
  }

  ghost predicate IsWindowRun(run: seq<Window>) {
    && run != [] && Init(run[0].s) && run[0].readings == {}
    && forall i | 0 <= i < |run| - 1 :: Moves(run[i], run[i + 1])
  }

  /** A new vote rests on an id that is no longer the last one: the candidate's log is not behind what was read, but it
      is behind what is on disk by now. */
  predicate Stale(nd: Node, m: Message, id: LogId)
    requires m.VoteReq?
  {
    && m.last.AtLeast(id) && !m.last.AtLeast(LastId(nd.durable))
    && (m.term > nd.term || nd.voted.None?)
  }

  predicate Rechecked(w: Window, move: Move)
    requires Possible(w, move)
  {
    move.GiveVote? ==> !Stale(w.s.nodes[move.r.n], move.m, move.r.id)
  }

  ghost predicate RecheckedMoves(w: Window, v: Window) {
    exists move :: Possible(w, move) && Rechecked(w, move) && v == Take(w, move)
  }

  /** The ids are compared again when the vote is given. */
  ghost predicate IsRecheckedRun(run: seq<Window>) {
    && run != [] && Init(run[0].s) && run[0].readings == {}
    && forall i | 0 <= i < |run| - 1 :: RecheckedMoves(run[i], run[i + 1])
  }

  function States(run: seq<Window>): (r: seq<State>)
    ensures |r| == |run|
  {
    seq(|run|, i requires 0 <= i < |run| => run[i].s)
  }

  // ---- a vote that passes the comparison is a vote of the protocol

  /** An id, not below what is on disk, with which the protocol gives the same answer. */
  function Fresh(nd: Node, m: Message, id: LogId): (own: LogId)
    requires m.VoteReq?
    ensures own.AtLeast(LastId(nd.durable))
  {
    if id.AtLeast(LastId(nd.durable)) then id else LastId(nd.durable)
  }

  /** The window goes unnoticed, with some id that is not below what is on disk, exactly when the vote is not stale. */
  lemma UnnoticedExactly(nd: Node, h: Hist, m: Message, candLog: Log, id: LogId)
    requires m.VoteReq? && m.term >= nd.term
    ensures (exists own: LogId :: own.AtLeast(LastId(nd.durable)) && AnswerVote(nd, h, m, candLog, own) == AnswerVote(nd, h, m, candLog, id))
            <==> !Stale(nd, m, id)
  {
    if !Stale(nd, m, id) {
      assert AnswerVote(nd, h, m, candLog, Fresh(nd, m, id)) == AnswerVote(nd, h, m, candLog, id);
    }
  }

  lemma GivenIsStep(w: Window, move: Move)
    requires move.GiveVote? && Possible(w, move) && Rechecked(w, move)
    ensures Next(w.s, Take(w, move).s)
  {
    var nd := w.s.nodes[move.r.n];
    UnnoticedExactly(nd, w.s.h, move.m, move.candLog, move.r.id);
    hide AnswerVote, LogId.AtLeast;
    var own: LogId :| own.AtLeast(LastId(nd.durable))
                      && AnswerVote(nd, w.s.h, move.m, move.candLog, own) == AnswerVote(nd, w.s.h, move.m, move.candLog, move.r.id);
    var step := VoteReqStep(move.r.n, move.m, move.candLog, own);
    assert Enabled(w.s, step) && Take(w, move).s == Do(w.s, step);
  }

  lemma ReadIsStep(w: Window, move: Move)
    requires move.Read? && Possible(w, move) && Inv(w.s)
    ensures Next(w.s, Take(w, move).s)
  {
    NodeFacts(w.s, move.n);
    var nd := w.s.nodes[move.n];
    var step := ApplyStep(move.n, nd.applied);
    assert Enabled(w.s, step);
    assert nd.(applied := nd.applied) == nd && w.s.nodes[move.n := nd] == w.s.nodes;
    assert Do(w.s, step) == w.s;
  }

  lemma RecheckedIsStep(w: Window, move: Move)
    requires Possible(w, move) && Rechecked(w, move) && Inv(w.s)
    ensures Next(w.s, Take(w, move).s)
  {
    hide Inv, Enabled, AnswerVote, Protocol.Run;
    match move
    case Plain(step) => assert Take(w, move).s == Do(w.s, step);
    case Read(_, _) => ReadIsStep(w, move);
    case GiveVote(_, _, _) => GivenIsStep(w, move);
  }

  lemma RecheckedIsNext(w: Window, v: Window)
    requires RecheckedMoves(w, v) && Inv(w.s)
    ensures Next(w.s, v.s)
  {
    hide Inv, Possible, Take, Next;
    var move :| Possible(w, move) && Rechecked(w, move) && v == Take(w, move);
    RecheckedIsStep(w, move);
  }

  /** With the comparison made again, a run with windows is a run of the protocol: all that holds in every run holds. */
  lemma {:induction false} RecheckedIsRun(run: seq<Window>)
    requires IsRecheckedRun(run)
    ensures IsRun(States(run))
    decreases |run|
  {
    hide Inv, Init, Next, RecheckedMoves;
    if |run| > 1 {
      var front := run[..|run| - 1];
      var i := |run| - 2;
      RecheckedIsRun(front);
      Safety.RunInv(States(front), i, i);
      RecheckedIsNext(run[i], run[i + 1]);
      forall k | 0 <= k < |run| - 1
        ensures Next(States(run)[k], States(run)[k + 1])
      {
        if k < i {
          assert Next(States(front)[k], States(front)[k + 1]);
        }
      }
      assert States(run)[0] == States(front)[0];
    }
  }

  /** So no two nodes apply different entries, and later leaders have what is committed. */
  lemma RecheckedIsSafe(run: seq<Window>, i: nat, j: nat, a: PeerId, b: PeerId, index: nat)
    requires IsRecheckedRun(run) && i <= j < |run| && a in run[i].s.nodes && b in run[j].s.nodes
    requires 0 < index <= run[i].s.nodes[a].applied && index <= run[j].s.nodes[b].applied
    ensures index <= |run[i].s.nodes[a].Mem()| && index <= |run[j].s.nodes[b].Mem()|
    ensures run[i].s.nodes[a].Mem()[index - 1] == run[j].s.nodes[b].Mem()[index - 1]
  {
    hide IsRecheckedRun, IsRun;
    RecheckedIsRun(run);
    Safety.StateMachineSafety(States(run), i, j, a, b, index);
  }
}
