/** A crash in the middle of a write: the open file of the directory ends at any byte. */
module SegmentTorn {
  import opened Types
  import opened LogStorages
  import opened SegmentCodec
  import opened SegmentChain
  import opened SegmentRecovery
  import opened SegmentCrash

  /** How entries become records of a segment file. */
  datatype Serial = Serial(format: Format, write: LogEntry -> Rec)

  ghost predicate SerialOk(s: Serial) {
    FormatOk(s.format) && forall e {:trigger s.write(e)} :: RecOk(s.format, s.write(e))
  }

  function Recs(s: Serial, es: seq<LogEntry>): (r: seq<Rec>)
    ensures |r| == |es| && forall i | 0 <= i < |es| :: r[i] == s.write(es[i])
  {
    seq(|es|, i requires 0 <= i < |es| => s.write(es[i]))
  }

  /** The bytes of a segment file. */
  function Bytes(s: Serial, es: seq<LogEntry>): seq<byte> {
    EncodeAll(s.format, Recs(s, es))
  }

  /** How many entries lie wholly within the first `n` bytes of the file. */
  function Left(s: Serial, es: seq<LogEntry>, n: nat): (k: nat)
    ensures k <= |es|
  {
    Whole(s.format, Recs(s, es), n)
  }

  /** Loading a file that was cut at any byte finds the entries that lie wholly within it, and cuts off the rest. */
  lemma TornFile(s: Serial, es: seq<LogEntry>, n: nat)
    requires SerialOk(s) && n <= |Bytes(s, es)|
    ensures var kept := es[..Left(s, es, n)];
            && Bytes(s, kept) <= Bytes(s, es)[..n]
            && LoadFrom(s.format, Bytes(s, es)[..n], 0) == Loaded(Index(s.format, Recs(s, kept)), |Bytes(s, kept)|, true)
  {
    var f, rs := s.format, Recs(s, es);
    var k := Whole(f, rs, n);
    hide EncodeAll, LoadFrom, Index, Whole;
    assert rs[..k] == Recs(s, es[..k]);
    TornTail(f, rs, n, 0);
    PrefixFacts(f, rs, n, k);
  }

  /** A restart on a directory whose open file was cut at any byte succeeds. It shows the log cut short, and nothing
      before the first entry that the cut has hit is lost. */
  lemma TornDirectory(s: Serial, meta: nat, segs: seq<Seg>, open: Seg, n: nat)
    requires SerialOk(s) && n <= |Bytes(s, open.entries)| && Cover(segs + [open], meta) && Filled(segs)
    ensures var k := Left(s, open.entries, n);
            CutDown(DirOf(meta, segs, Some(Seg(open.first, open.entries[..k]))), Visible(segs + [open], meta), open.first + k - 1)
  {
    var k := Left(s, open.entries, n);
    hide Left, Visible, CutDown, DirOf, Cover, Filled, SerialOk, Bytes;
    ShorterOpen(meta, segs, open, Seg(open.first, open.entries[..k]));
  }

  /** A shorter file in progress shows the log cut short. */
  lemma ShorterOpen(meta: nat, segs: seq<Seg>, open: Seg, found: Seg)
    requires Cover(segs + [open], meta) && Filled(segs) && found.first == open.first && found.entries <= open.entries
    ensures CutDown(DirOf(meta, segs, Some(found)), Visible(segs + [open], meta), found.Last())
  {
    hide Visible, CutDown, DirOf, Filled, Cover, Flat;
    CoverCut(segs, open, found, meta);
    FlatShorter(segs, open, found);
    VisibleLast(segs + [found], meta);
    CutDownBy(meta, segs, Some(found), segs + [open], found.Last());
  }

  lemma FlatShorter(segs: seq<Seg>, open: Seg, found: Seg)
    requires found.entries <= open.entries
    ensures Flat(segs + [found]) <= Flat(segs + [open])
  {
    FlatConcat(segs, [open]);
    FlatConcat(segs, [found]);
    FlatOne(open);
    FlatOne(found);
  }

  lemma CoverCut(segs: seq<Seg>, open: Seg, found: Seg, first: nat)
    requires Cover(segs + [open], first) && found.first == open.first && found.entries <= open.entries
    ensures Cover(segs + [found], first)
  {
    var all, cut := segs + [open], segs + [found];
    var base := all[0].first;
    ChainConcat(segs, [open], base);
    ChainConcat(segs, [found], base);
    var end := base + |Flat(segs)|;
    ChainOne(open, end);
    ChainOne(found, end);
  }

  /** A crash while an entry is written to the open file leaves the log with that entry, when all its bytes are there,
      or without it. */
  lemma TornAppend(s: Serial, meta: nat, segs: seq<Seg>, open: Seg, e: LogEntry, n: nat)
    requires SerialOk(s) && Cover(segs + [Seg(open.first, open.entries + [e])], meta) && Cover(segs + [open], meta) && Filled(segs)
    requires |Bytes(s, open.entries)| <= n <= |Bytes(s, open.entries + [e])|
    ensures var more := Seg(open.first, open.entries + [e]);
            var k := Left(s, more.entries, n);
            var left := if n == |Bytes(s, more.entries)| then more else open;
            && k == |left.entries| && more.entries[..k] == left.entries
            && Recovers(DirOf(meta, segs, Some(left)), Visible(segs + [left], meta))
  {
    var more := open.entries + [e];
    AppendWhole(s, open.entries, e, n);
    assert more[..|open.entries|] == open.entries && more[..|more|] == more;
    RecoverCover(meta, segs, Some(if n == |Bytes(s, more)| then Seg(open.first, more) else open));
  }

  lemma AppendWhole(s: Serial, es: seq<LogEntry>, e: LogEntry, n: nat)
    requires |Bytes(s, es)| <= n <= |Bytes(s, es + [e])|
    ensures Left(s, es + [e], n) == |es| + if n == |Bytes(s, es + [e])| then 1 else 0
  {
    hide EncodeAll;
    var f, rs := s.format, Recs(s, es + [e]);
    assert rs[..|es|] == Recs(s, es) && rs[..|rs|] == rs;
    var k := Whole(f, rs, n);
    if k < |es| {
      OffsetsGrow(f, rs, k + 1, |es|);
    }
  }
}
