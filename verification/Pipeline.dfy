/** From the ballot box to the state machine: what happens to the closure of every task, over whole runs.

    The box, the closure queue and the state machine caller run in different threads. A step here is what one
    thread does under one lock; committed indices travel as notices that may arrive late, out of order or twice. */
module Pipeline {
  import opened Types
  import opened Quorum
  import opened BallotSpec
  import opened ClosureQueues

  datatype Delivery = Delivery(closure: Closure, index: nat)

  /** `owed` are committed indices a follower has computed but not yet given to the box, `known` the largest of
      them and `base` the first index of the latest leadership. `clearing` holds between the two halves of
      stepping down. The last three fields record what happened to every closure. */
  datatype Pipe = Pipe(box: Box, committed: nat, waiting: Waiting, clearing: bool,
                       owed: set<nat>, known: nat, base: nat,
                       notices: set<nat>, applied: nat, stopped: bool,
                       appended: map<Closure, nat>, delivered: seq<Delivery>, failed: seq<Closure>)

  datatype Event =
    | Lead(index: nat)
    | Append(conf: Config, closure: Option<Closure>)
    | Grant(first: nat, last: nat, peer: PeerId)
    | Learn(index: nat)
    | Give(index: nat)
    | DropBallots
    | FailClosures
    | Apply(index: nat, stop: nat)

  const Start := Pipe(NoBox, 0, Waiting(0, []), false, {}, 0, 0, {}, 0, false, map[], [], [])

  /** A leadership starts beyond everything the node has learned to be committed; a closure is used once. */
  predicate Enabled(p: Pipe, e: Event) {
    match e
    case Lead(index) => p.box == NoBox && !p.clearing && index > p.known && index > p.committed
    case Append(_, closure) => p.box.pending > 0 && (closure.Some? ==> closure.value !in p.appended)
    case Grant(_, _, _) => true
    case Learn(_) => p.box == NoBox && !p.clearing
    case Give(index) => index in p.owed
    case DropBallots => p.box.pending > 0
    case FailClosures => p.clearing
    case Apply(index, _) => index in p.notices
  }

  function Deliveries(out: seq<Option<Closure>>, first: nat): seq<Delivery> {
    if out == [] then []
    else if out[0].Some? then [Delivery(out[0].value, first)] + Deliveries(out[1..], first + 1)
    else Deliveries(out[1..], first + 1)
  }

  /** The part of a popped run below `stop`, where the state machine reported an error, if it did. */
  function Before(popped: Popped, stop: nat): (n: nat)
    ensures n <= |popped.out|
  {
    if stop <= popped.outFirst then 0 else Min(stop - popped.outFirst, |popped.out|)
  }

  function Do(p: Pipe, e: Event): Pipe
    requires Enabled(p, e)
  {
    match e
    case Lead(index) => p.(box := Box(index, []), waiting := Waiting(index, []), base := index)
    case Append(conf, closure) =>
      p.(box := Box(p.box.pending, p.box.ballots + [BallotState(conf, {})]),
         appended := if closure.Some? then p.appended[closure.value := p.waiting.End()] else p.appended,
         waiting := Waiting(p.waiting.first, p.waiting.queue + [closure]))
    case Grant(first, last, peer) =>
      var r := CommitAt(p.box, first, last, peer);
      if r.committed == 0 then p.(box := r.box)
      else p.(box := r.box, committed := r.committed, notices := p.notices + {r.committed})
    case Learn(index) => p.(owed := p.owed + {index}, known := Max(p.known, index))
    case Give(index) =>
      if p.box == NoBox && index > p.committed then p.(committed := index, notices := p.notices + {index}) else p
    case DropBallots => p.(box := NoBox, clearing := true)
    case FailClosures =>
      p.(waiting := Waiting(0, []), clearing := false, failed := p.failed + Closures(p.waiting.queue))
    case Apply(index, stop) =>
      if p.stopped || index <= p.applied || PopUntil(p.waiting, index).None? then p
      else
        var popped := PopUntil(p.waiting, index).value;
        var n := Before(popped, stop);
        p.(waiting := popped.waiting, applied := index, stopped := stop <= index,
           delivered := p.delivered + Deliveries(popped.out[..n], popped.outFirst),
           failed := p.failed + Closures(popped.out[n..]))
  }

  ghost predicate Next(p: Pipe, q: Pipe) {
    exists e :: Enabled(p, e) && q == Do(p, e)
  }

  ghost predicate IsRun(run: seq<Pipe>) {
    run != [] && run[0] == Start && forall i | 0 <= i < |run| - 1 :: Next(run[i], run[i + 1])
  }

  // ---- the invariant

  /** Ballots and closures end at the same index, beyond everything published so far. */
  ghost predicate Aligned(p: Pipe) {
    if p.box.pending > 0 then
      && !p.clearing && p.known < p.base <= p.waiting.first && p.applied < p.waiting.first
      && p.committed < p.box.pending && p.waiting.first <= p.box.pending
      && p.waiting.End() == p.box.pending + |p.box.ballots|
    else
      && p.box == NoBox
      && if p.clearing then
           && p.known < p.base <= p.waiting.first
           && (p.waiting.queue != [] ==> p.applied < p.waiting.first && p.committed < p.waiting.End())
         else p.waiting == Waiting(0, [])
  }

  ghost predicate Placed(p: Pipe) {
    && (forall i | 0 <= i < |p.waiting.queue| && p.waiting.queue[i].Some? ::
          && p.waiting.queue[i].value in p.appended
          && p.appended[p.waiting.queue[i].value] == p.waiting.first + i)
    && (forall i | 0 <= i < |p.delivered| ::
          && p.delivered[i].closure in p.appended && p.appended[p.delivered[i].closure] == p.delivered[i].index
          && p.delivered[i].index <= p.applied)
  }

  function Ids(ds: seq<Delivery>): seq<Closure> {
    seq(|ds|, i requires 0 <= i < |ds| => ds[i].closure)
  }

  /** Every closure ever appended is in exactly one place: delivered, failed, or still waiting. */
  ghost predicate Conserved(p: Pipe) {
    multiset(p.appended.Keys) == multiset(Ids(p.delivered)) + multiset(p.failed) + multiset(Closures(p.waiting.queue))
  }

  ghost predicate Bounded(p: Pipe) {
    && (forall c | c in p.owed :: c <= p.known)
    && (forall c | c in p.notices :: c <= p.committed)
    && p.applied <= p.committed
  }

  ghost predicate Inv(p: Pipe) {
    Aligned(p) && Placed(p) && Conserved(p) && Bounded(p)
  }

  // ---- popping

  lemma {:induction false} DeliveriesFacts(out: seq<Option<Closure>>, first: nat)
    ensures Ids(Deliveries(out, first)) == Closures(out)
    ensures forall d | d in Deliveries(out, first) ::
              first <= d.index < first + |out| && out[d.index - first] == Some(d.closure)
  {
    if out != [] {
      DeliveriesFacts(out[1..], first + 1);
      DeliveriesPlaced(out, first);
      if out[0].Some? {
        IdsConcat([Delivery(out[0].value, first)], Deliveries(out[1..], first + 1));
      }
    }
  }

  lemma DeliveriesPlaced(out: seq<Option<Closure>>, first: nat)
    requires out != []
    requires forall d | d in Deliveries(out[1..], first + 1) ::
               first + 1 <= d.index < first + |out| && out[1..][d.index - first - 1] == Some(d.closure)
    ensures forall d | d in Deliveries(out, first) ::
              first <= d.index < first + |out| && out[d.index - first] == Some(d.closure)
  {
    hide Ids, Closures;
    forall d | d in Deliveries(out, first)
      ensures first <= d.index < first + |out| && out[d.index - first] == Some(d.closure)
    {
      if d in Deliveries(out[1..], first + 1) {
        assert out[1..][d.index - first - 1] == out[d.index - first];
      }
    }
  }

  /** The check on the index passes for every notice that reaches the queue. */
  lemma PopIsDefined(p: Pipe, index: nat)
    requires Inv(p) && index in p.notices
    ensures PopUntil(p.waiting, index).Some?
  {
  }

  lemma ApplyPlaced(p: Pipe, index: nat, stop: nat)
    requires Inv(p) && index in p.notices && !p.stopped && index > p.applied
    ensures Placed(Do(p, Apply(index, stop)))
  {
    hide Conserved, Ids, Closures;
    PopIsDefined(p, index);
    var popped := PopUntil(p.waiting, index).value;
    var n := Before(popped, stop);
    var q := Do(p, Apply(index, stop));
    var ds := Deliveries(popped.out[..n], popped.outFirst);
    DeliveriesFacts(popped.out[..n], popped.outFirst);
    hide Deliveries;
    forall i | 0 <= i < |q.delivered|
      ensures q.delivered[i].closure in q.appended && q.appended[q.delivered[i].closure] == q.delivered[i].index
      ensures q.delivered[i].index <= q.applied
    {
      if i >= |p.delivered| {
        var d := ds[i - |p.delivered|];
        assert d in ds;
        assert p.waiting.queue[d.index - popped.outFirst] == popped.out[d.index - popped.outFirst];
      }
    }
  }

  lemma ApplyConserved(p: Pipe, index: nat, stop: nat)
    requires Inv(p) && index in p.notices && !p.stopped && index > p.applied
    ensures Conserved(Do(p, Apply(index, stop)))
  {
    PopIsDefined(p, index);
    hide Aligned, Placed, Bounded, Deliveries, Closures, Ids;
    var popped := PopUntil(p.waiting, index).value;
    var n := Before(popped, stop);
    var ds := Deliveries(popped.out[..n], popped.outFirst);
    DeliveriesFacts(popped.out[..n], popped.outFirst);
    PoppedClosures(p.waiting, popped, index, n);
    IdsConcat(p.delivered, ds);
    Regroup(multiset(Ids(p.delivered)), multiset(p.failed), multiset(Closures(popped.out[..n])),
            multiset(Closures(popped.out[n..])), multiset(Closures(popped.waiting.queue)));
  }

  lemma PoppedClosures(w: Waiting, popped: Popped, index: nat, n: nat)
    requires PopUntil(w, index) == Some(popped) && n <= |popped.out|
    ensures Closures(w.queue) ==
              Closures(popped.out[..n]) + Closures(popped.out[n..]) + Closures(popped.waiting.queue)
  {
    assert popped.out[..n] + popped.out[n..] == popped.out;
    ClosuresConcat(popped.out[..n], popped.out[n..]);
    assert popped.out + popped.waiting.queue == w.queue;
    ClosuresConcat(popped.out, popped.waiting.queue);
  }

  lemma IdsConcat(a: seq<Delivery>, b: seq<Delivery>)
    ensures Ids(a + b) == Ids(a) + Ids(b)
  {
  }

  lemma Regroup(d: multiset<Closure>, f: multiset<Closure>, x: multiset<Closure>, y: multiset<Closure>, w: multiset<Closure>)
    ensures (d + x) + (f + y) + w == d + f + (x + y + w)
  {
  }

  lemma ApplyKeeps(p: Pipe, index: nat, stop: nat)
    requires Inv(p) && index in p.notices && !p.stopped && index > p.applied
    ensures Inv(Do(p, Apply(index, stop)))
  {
    PopIsDefined(p, index);
    ApplyPlaced(p, index, stop);
    ApplyConserved(p, index, stop);
  }

  lemma AppendKeeps(p: Pipe, e: Event)
    requires Inv(p) && e.Append? && Enabled(p, e)
    ensures Inv(Do(p, e))
  {
    hide Conserved, Closures, Ids;
    AppendConserved(p, e);
    AppendPlaced(p, e);
    hide Placed;
  }

  lemma AppendPlaced(p: Pipe, e: Event)
    requires Inv(p) && e.Append? && Enabled(p, e)
    ensures Placed(Do(p, e))
  {
    hide Conserved, Closures, Ids;
  }

  lemma AppendConserved(p: Pipe, e: Event)
    requires Conserved(p) && e.Append? && Enabled(p, e)
    ensures Conserved(Do(p, e))
  {
    hide Closures, Ids;
    ClosuresConcat(p.waiting.queue, [e.closure]);
    ClosuresOne(e.closure);
    if e.closure.Some? {
      OneMoreKey(p.appended, e.closure.value, p.waiting.End());
      assert multiset([e.closure.value]) == multiset{e.closure.value};
    }
  }

  lemma ClosuresOne(c: Option<Closure>)
    ensures Closures([c]) == if c.Some? then [c.value] else []
  {
    assert c.Some? ==> Closures([c]) == [c.value] + Closures([]);
  }

  lemma OneMoreKey(m: map<Closure, nat>, c: Closure, index: nat)
    requires c !in m
    ensures multiset(m[c := index].Keys) == multiset(m.Keys) + multiset{c}
  {
    assert m[c := index].Keys == m.Keys + {c};
  }

  lemma GrantKeeps(p: Pipe, e: Event)
    requires Inv(p) && e.Grant?
    ensures Inv(Do(p, e))
  {
    CommitAtCases(p.box, e.first, e.last, e.peer);
  }

  lemma StepDownKeeps(p: Pipe, e: Event)
    requires Inv(p) && Enabled(p, e) && (e.DropBallots? || e.FailClosures?)
    ensures Inv(Do(p, e))
  {
  }

  lemma IndexKeeps(p: Pipe, e: Event)
    requires Inv(p) && Enabled(p, e) && (e.Lead? || e.Learn? || e.Give?)
    ensures Inv(Do(p, e))
  {
  }

  lemma NextKeeps(p: Pipe, q: Pipe)
    requires Inv(p) && Next(p, q)
    ensures Inv(q)
  {
    hide Inv;
    var e :| Enabled(p, e) && q == Do(p, e);
    match e
    case Append(_, _) => AppendKeeps(p, e);
    case Grant(_, _, _) => GrantKeeps(p, e);
    case Apply(index, stop) =>
      if !p.stopped && index > p.applied {
        ApplyKeeps(p, index, stop);
      }
    case Lead(_) => IndexKeeps(p, e);
    case Learn(_) => IndexKeeps(p, e);
    case Give(_) => IndexKeeps(p, e);
    case DropBallots => StepDownKeeps(p, e);
    case FailClosures => StepDownKeeps(p, e);
  }

  lemma {:induction false} RunInv(run: seq<Pipe>, i: nat)
    requires IsRun(run) && i < |run|
    ensures Inv(run[i])
  {
    if i > 0 {
      RunInv(run, i - 1);
      assert Next(run[i - 1], run[i]);
      NextKeeps(run[i - 1], run[i]);
    }
  }

  // ---- theorems about runs

  /** Every closure is delivered once, with the entry of its own index, or failed once, or still waits. */
  lemma ExactlyOnce(run: seq<Pipe>, i: nat, c: Closure)
    requires IsRun(run) && i < |run| && c in run[i].appended
    ensures multiset(Ids(run[i].delivered))[c] + multiset(run[i].failed)[c]
            + multiset(Closures(run[i].waiting.queue))[c] == 1
    ensures forall d | d in run[i].delivered && d.closure == c :: d.index == run[i].appended[c]
  {
    RunInv(run, i);
    assert multiset(run[i].appended.Keys)[c] == 1;
  }

  /** None of the checks of box and queue can fail: a leadership starts with an empty box and an empty queue, a
      follower's late committed index is below the ballots, a notice never exceeds the queue. */
  lemma ChecksHold(run: seq<Pipe>, i: nat, index: nat)
    requires IsRun(run) && i < |run|
    ensures Enabled(run[i], Lead(index)) ==> run[i].waiting.queue == []
    ensures Enabled(run[i], Give(index)) && run[i].box != NoBox ==> index < run[i].box.pending
    ensures index in run[i].notices ==> PopUntil(run[i].waiting, index).Some?
  {
    RunInv(run, i);
    if index in run[i].notices {
      PopIsDefined(run[i], index);
    }
  }

  /** A notice from before the current leadership takes no closure of this leadership. */
  lemma StaleNotice(run: seq<Pipe>, i: nat, j: nat, index: nat, stop: nat)
    requires IsRun(run) && i < j < |run| && index in run[i].notices && index in run[j].notices
    requires Enabled(run[i], Lead(run[j].base))
    ensures Do(run[j], Apply(index, stop)).waiting == run[j].waiting
  {
    RunInv(run, i);
    RunInv(run, j);
  }

  lemma {:induction false} DeliveriesComplete(out: seq<Option<Closure>>, first: nat, k: nat)
    requires k < |out| && out[k].Some?
    ensures Delivery(out[k].value, first + k) in Deliveries(out, first)
    decreases k
  {
    if k > 0 {
      DeliveriesComplete(out[1..], first + 1, k - 1);
    }
  }

  /** What a notice does to a closure that waits: up to the index of the notice it is delivered with its own index, or fails
      when the state machine stopped at or before it; behind that index it goes on waiting. */
  lemma NoticeSettles(run: seq<Pipe>, i: nat, index: nat, stop: nat, c: Closure)
    requires IsRun(run) && i < |run| && index in run[i].notices && !run[i].stopped && Some(c) in run[i].waiting.queue
    ensures var p, q := run[i], Do(run[i], Apply(index, stop));
            && c in p.appended
            && if p.appended[c] > index then Some(c) in q.waiting.queue
               else if p.appended[c] < stop then Delivery(c, p.appended[c]) in q.delivered else c in q.failed
  {
    hide IsRun, Conserved, Deliveries, Closures, Ids, PopUntil, Before;
    RunInv(run, i);
    var p := run[i];
    var k :| 0 <= k < |p.waiting.queue| && p.waiting.queue[k] == Some(c);
    PopIsDefined(p, index);
    var popped := PopUntil(p.waiting, index).value;
    var n := Before(popped, stop);
    WhereItGoes(p.waiting, index, stop, k);
    if n <= k < |popped.out| {
      assert popped.out[n..][k - n] == Some(c);
    } else if k < n {
      assert popped.out[..n][k] == Some(c);
      DeliveriesComplete(popped.out[..n], popped.outFirst, k);
    }
  }

  lemma WhereItGoes(w: Waiting, index: nat, stop: nat, k: nat)
    requires k < |w.queue| && PopUntil(w, index).Some?
    ensures var popped := PopUntil(w, index).value;
            && (k < |popped.out| <==> w.first + k <= index) && (k >= |popped.out| ==> w.queue[k] in popped.waiting.queue)
            && (k < |popped.out| ==> popped.out[k] == w.queue[k] && popped.outFirst == w.first)
            && (k < Before(popped, stop) <==> k < |popped.out| && w.first + k < stop)
  {
    var popped := PopUntil(w, index).value;
    if k >= |popped.out| {
      assert popped.waiting.queue[k - |popped.out|] == w.queue[k];
    }
  }
}
