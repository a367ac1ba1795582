/** The closures of client tasks that wait for their log entries to be committed. */
module ClosureQueues {
  import opened Types

  type Closure = nat

  /** What the queue holds: `queue[i]` waits for index `first + i`; an entry without a closure has a place too. */
  datatype Waiting = Waiting(first: nat, queue: seq<Option<Closure>>) {
    /** One past the index of the last place. */
    function End(): nat {
      first + |queue|
    }

    /** What waits for an index, if anything has a place there. */
    function At(index: nat): Option<Option<Closure>> {
      if first <= index < End() then Some(queue[index - first]) else None
    }
  }

  /** A popped run of closures and the index of the first of them. */
  datatype Popped = Popped(waiting: Waiting, out: seq<Option<Closure>>, outFirst: nat)

  /** An index beyond the last place is the caller's mistake: nothing is popped. */
  function PopUntil(w: Waiting, index: nat): Option<Popped> {
    if w.queue == [] || index < w.first then Some(Popped(w, [], index + 1))
    else if index >= w.End() then None
    else
      var n := index + 1 - w.first;
      Some(Popped(Waiting(index + 1, w.queue[n..]), w.queue[..n], w.first))
  }

  /** The closures of a run of places, in order. */
  function Closures(queue: seq<Option<Closure>>): (r: seq<Closure>)
    ensures forall c :: c in r <==> Some(c) in queue
  {
    if queue == [] then []
    else if queue[0].Some? then [queue[0].value] + Closures(queue[1..])
    else Closures(queue[1..])
  }

  lemma {:induction false} ClosuresConcat(a: seq<Option<Closure>>, b: seq<Option<Closure>>)
    ensures Closures(a + b) == Closures(a) + Closures(b)
  {
    if a == [] {
      assert a + b == b;
    } else {
      assert (a + b)[1..] == a[1..] + b;
      ClosuresConcat(a[1..], b);
    }
  }

  class ClosureQueue {
    var firstIndex: nat
    var queue: seq<Option<Closure>>

    function View(): Waiting
      reads this
    {
      Waiting(firstIndex, queue)
    }

    constructor ()
      ensures View() == Waiting(0, [])
    {
      firstIndex, queue := 0, [];
    }

    /** Empties the queue; `failed` are the closures that are run with the error "leader stepped down". */
    method Clear() returns (failed: seq<Closure>)
      modifies this
      ensures View() == Waiting(0, [])
      ensures failed == Closures(old(queue))
    {
      var saved := queue;
      queue, firstIndex := [], 0;
      failed := [];
      var i := 0;
      while i < |saved|
        invariant i <= |saved| && failed == Closures(saved[..i])
        invariant queue == [] && firstIndex == 0
      {
        assert saved[..i + 1] == saved[..i] + [saved[i]];
        ClosuresConcat(saved[..i], [saved[i]]);
        if saved[i].Some? {
          failed := failed + [saved[i].value];
        }
        i := i + 1;
      }
      assert saved[..i] == saved;
    }

    /** Nothing waits yet, and the next closure will wait for `first`. */
    method ResetFirstIndex(first: nat)
      requires queue == []
      modifies this
      ensures View() == Waiting(first, []) && View().End() == first
      ensures forall index: nat {:trigger View().At(index)} :: View().At(index) == None
    {
      firstIndex := first;
    }

    /** A closure waits for the next index, everything else for what it waited for before; popping up to that index hands
        it out last. */
    method AppendPendingClosure(c: Option<Closure>)
      modifies this
      ensures View() == Waiting(old(firstIndex), old(queue) + [c])
      ensures forall index: nat {:trigger View().At(index)} ::
                View().At(index) == if index == old(View().End()) then Some(c) else old(View()).At(index)
      ensures PopUntil(View(), old(View().End())) == Some(Popped(Waiting(View().End(), []), old(queue) + [c], firstIndex))
    {
      queue := queue + [c];
      assert queue[..|queue|] == queue && queue[|queue|..] == [];
    }

    /** Returns 0, or -1 for an index that has no place yet. */
    method PopClosureUntil(index: nat) returns (code: int, out: seq<Option<Closure>>, outFirst: nat)
      modifies this
      ensures code == 0 <==> PopUntil(old(View()), index).Some?
      ensures code == 0 ==> Popped(View(), out, outFirst) == PopUntil(old(View()), index).value
      ensures code != 0 ==> code == -1 && View() == old(View())
      ensures code == -1 <==> old(queue) != [] && old(firstIndex) <= index && old(View().End()) <= index
      ensures code == 0 ==> outFirst + |out| == index + 1
      ensures code == 0 ==> forall i: nat {:trigger View().At(i)} ::
                View().At(i) == if i <= index then None else old(View()).At(i)
      ensures code == 0 ==> forall i: nat {:trigger old(View()).At(i)} | i <= index ::
                old(View()).At(i) == if outFirst <= i then Some(out[i - outFirst]) else None
    {
      out := [];
      if queue == [] || index < firstIndex {
        return 0, out, index + 1;
      }
      if index > firstIndex + |queue| - 1 {
        return -1, out, 0;
      }
      outFirst := firstIndex;
      var i := firstIndex;
      while i <= index
        invariant firstIndex == old(firstIndex) == outFirst <= i <= index + 1
        invariant out == old(queue)[..i - outFirst] && queue == old(queue)[i - outFirst..]
      {
        ghost var n := i - outFirst;
        assert old(queue)[..n + 1] == old(queue)[..n] + [queue[0]];
        assert old(queue)[n..][1..] == old(queue)[n + 1..];
        out := out + [queue[0]];
        queue := queue[1..];
        i := i + 1;
      }
      firstIndex := index + 1;
      code := 0;
    }
  }
}
