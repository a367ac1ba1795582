/** Segments in order: together they hold one run of entries. */
module SegmentChain {
  import opened Types
  import opened LogStorages

  /** A segment by the entries it holds. */
  datatype Seg = Seg(first: nat, entries: seq<LogEntry>) {
    function Last(): int {
      first + |entries| - 1
    }

    function Cut(index: nat): Seg {
      if index >= Last() || index + 1 < first then this else this.(entries := entries[..index + 1 - first])
    }
  }

  function Flat(segs: seq<Seg>): seq<LogEntry> {
    if segs == [] then [] else segs[0].entries + Flat(segs[1..])
  }

  /** Each segment starts where the one before it ends, from `base` on. */
  ghost predicate Chain(segs: seq<Seg>, base: nat) {
    segs != [] ==>
      && segs[0].first == base && Store(base + 0, segs[0].entries).Valid()
      && Chain(segs[1..], base + |segs[0].entries|)
  }

  lemma {:induction false} FlatConcat(a: seq<Seg>, b: seq<Seg>)
    ensures Flat(a + b) == Flat(a) + Flat(b)
  {
    if a == [] {
      assert a + b == b;
    } else {
      assert (a + b)[1..] == a[1..] + b;
      FlatConcat(a[1..], b);
    }
  }

  lemma {:induction false} ChainConcat(a: seq<Seg>, b: seq<Seg>, base: nat)
    ensures Chain(a + b, base) <==> Chain(a, base) && Chain(b, base + |Flat(a)|)
  {
    if a == [] {
      assert a + b == b;
    } else {
      assert (a + b)[1..] == a[1..] + b;
      ChainConcat(a[1..], b, base + |a[0].entries|);
    }
  }

  /** The segments before and behind position `i`. */
  lemma SplitAt(segs: seq<Seg>, base: nat, i: nat)
    requires Chain(segs, base) && i <= |segs|
    ensures Chain(segs[..i], base) && Chain(segs[i..], base + |Flat(segs[..i])|)
    ensures Flat(segs) == Flat(segs[..i]) + Flat(segs[i..])
    ensures i < |segs| ==> segs[i].first == base + |Flat(segs[..i])|
  {
    assert segs == segs[..i] + segs[i..];
    ChainConcat(segs[..i], segs[i..], base);
    FlatConcat(segs[..i], segs[i..]);
  }

  lemma FlatOne(s: Seg)
    ensures Flat([s]) == s.entries
  {
    assert [s][1..] == [];
  }

  lemma ChainOne(s: Seg, base: nat)
    ensures Chain([s], base) <==> s.first == base && Store(base, s.entries).Valid()
  {
    assert [s][1..] == [];
  }

  /** An entry of segment `i`, seen from the whole. */
  lemma EntryOf(segs: seq<Seg>, base: nat, i: nat, index: nat)
    requires Chain(segs, base) && i < |segs| && segs[i].first <= index <= segs[i].Last()
    ensures base <= index < base + |Flat(segs)| && Flat(segs)[index - base] == segs[i].entries[index - segs[i].first]
  {
    SplitAt(segs, base, i);
    SplitAt(segs[i..], segs[i].first, 1);
    assert segs[i..][..1] == [segs[i]];
    FlatOne(segs[i]);
  }

  /** Everything the segments hold is numbered from `base` on. */
  lemma {:induction false} FlatValid(segs: seq<Seg>, base: nat)
    requires Chain(segs, base) && base > 0
    ensures Store(base, Flat(segs)).Valid()
  {
    if segs != [] {
      FlatValid(segs[1..], base + |segs[0].entries|);
      var n := |segs[0].entries|;
      forall k | 0 <= k < |Flat(segs)|
        ensures Flat(segs)[k].id.index == base + k
      {
        if k >= n {
          assert Flat(segs)[k] == Flat(segs[1..])[k - n];
        }
      }
    }
  }

  lemma Adjacent(segs: seq<Seg>, base: nat, i: nat)
    requires Chain(segs, base) && i + 1 < |segs|
    ensures segs[i + 1].first == segs[i].Last() + 1
  {
    SplitAt(segs, base, i);
    SplitAt(segs, base, i + 1);
    assert segs[..i + 1] == segs[..i] + [segs[i]];
    FlatConcat(segs[..i], [segs[i]]);
    FlatOne(segs[i]);
  }

  /** Starts of segments grow. */
  lemma {:induction false} StartsGrow(segs: seq<Seg>, base: nat, i: nat, j: nat)
    requires Chain(segs, base) && i <= j < |segs|
    ensures segs[i].first <= segs[j].first && segs[i].Last() <= segs[j].Last()
    ensures i < j ==> segs[i].Last() < segs[j].first
    decreases j - i
  {
    if i < j {
      Adjacent(segs, base, i);
      StartsGrow(segs, base, i + 1, j);
    }
  }
}
