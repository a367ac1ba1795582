/** The bytes of a segment file: how an entry is written, and what can be read back from a file that ends early. */
module SegmentCodec {
  import opened Types

  newtype byte = x: int | 0 <= x < 256

  const HEADER_SIZE: nat := 24
  const TWO_32: nat := 0x1_0000_0000
  const TWO_64: nat := 0x1_0000_0000_0000_0000
  const CONFIGURATION: nat := 3

  /** An entry as the segment sees it: the payload is already serialized. */
  datatype Rec = Rec(term: nat, kind: nat, data: seq<byte>)

  /** The checksums by their numbers, the number that new entries get, and whether the data of a configuration
      entry can be parsed. */
  datatype Format = Format(sums: (nat, seq<byte>) -> nat, known: set<nat>, number: nat, parses: seq<byte> -> bool) {
    function Sum(bs: seq<byte>): nat {
      sums(number, bs)
    }
  }

  ghost predicate FormatOk(f: Format) {
    f.number in f.known && f.number < 256 && forall n, bs {:trigger f.sums(n, bs)} :: f.sums(n, bs) < TWO_32
  }

  /** Fields fit their widths; a configuration can be parsed. */
  predicate RecOk(f: Format, r: Rec) {
    && r.term < TWO_64 && r.kind < 256 && |r.data| < TWO_32
    && (r.kind == CONFIGURATION ==> f.parses(r.data))
  }

  // ---- numbers in network order

  function Pow(k: nat): (p: nat)
    ensures p > 0
  {
    if k == 0 then 1 else 256 * Pow(k - 1)
  }

  function Pack(n: nat, width: nat): (bs: seq<byte>)
    ensures |bs| == width
  {
    if width == 0 then [] else Pack(n / 256, width - 1) + [(n % 256) as byte]
  }

  function Unpack(bs: seq<byte>): nat {
    if bs == [] then 0 else 256 * Unpack(bs[..|bs| - 1]) + bs[|bs| - 1] as nat
  }

  lemma {:induction false} UnpackPack(n: nat, width: nat)
    ensures Unpack(Pack(n, width)) == n % Pow(width)
    decreases width
  {
    if width > 0 {
      var rest := Pack(n / 256, width - 1);
      assert Pack(n, width)[..width - 1] == rest;
      UnpackPack(n / 256, width - 1);
      ModSplit(n, Pow(width - 1));
    }
  }

  lemma ModSplit(n: nat, p: nat)
    requires p > 0
    ensures n % (256 * p) == 256 * ((n / 256) % p) + n % 256
  {
    var q := n / 256;
    assert n == 256 * q + n % 256;
    assert q == p * (q / p) + q % p;
    var r := 256 * (q % p) + n % 256;
    assert n == (256 * p) * (q / p) + r;
    assert q % p <= p - 1;
    assert 0 <= r < 256 * p;
    ModUnique(n, 256 * p, q / p, r);
  }

  lemma ModUnique(n: nat, m: nat, q: nat, r: nat)
    requires m > 0 && n == m * q + r && r < m
    ensures n % m == r
  {
    assert n == m * (n / m) + n % m;
    var d: int := q - n / m;
    assert m * d == n % m - r;
    if d != 0 {
      MultipleIsLarge(m, d);
    }
  }

  lemma MultipleIsLarge(m: nat, d: int)
    requires m > 0 && d != 0
    ensures m * d >= m || m * d + m <= 0
  {
    if d > 0 {
      var k: nat := d - 1;
      assert m * d == m * k + m && m * k >= 0;
    } else {
      var k: nat := -d - 1;
      assert m * d + m == -(m * k) && m * k >= 0;
    }
  }

  // ---- writing

  function HeaderBody(f: Format, r: Rec): (bs: seq<byte>)
    ensures |bs| == HEADER_SIZE - 4
  {
    Pack(r.term, 8) + Pack(r.kind * 0x100_0000 + f.number * 0x1_0000, 4) + Pack(|r.data| % TWO_32, 4) + Pack(f.Sum(r.data), 4)
  }

  /** Header and data; the length field has only 32 bits. */
  function Encode(f: Format, r: Rec): (bs: seq<byte>)
    ensures |bs| == HEADER_SIZE + |r.data|
  {
    HeaderBody(f, r) + Pack(f.Sum(HeaderBody(f, r)), 4) + r.data
  }

  function EncodeAll(f: Format, rs: seq<Rec>): seq<byte> {
    if rs == [] then [] else EncodeAll(f, rs[..|rs| - 1]) + Encode(f, rs[|rs| - 1])
  }

  // ---- reading

  /** A header, or why there is none: the file ends too early, or the bytes are damaged. */
  datatype Header = Header(term: nat, kind: nat, number: nat, length: nat, sum: nat) | Short | Damaged

  function Field(file: seq<byte>, at: nat, width: nat): nat
    requires at + width <= |file|
  {
    Unpack(file[at..at + width])
  }

  /** An unknown checksum fails the check like a wrong one. */
  function ReadHeader(f: Format, file: seq<byte>, at: nat): Header {
    if at + HEADER_SIZE > |file| then Short
    else
      var meta := Field(file, at + 8, 4);
      var number := (meta * 0x100) % TWO_32 / 0x100_0000;
      if number !in f.known || f.sums(number, file[at..at + HEADER_SIZE - 4]) != Field(file, at + 20, 4) then Damaged
      else Header(Field(file, at, 8), meta / 0x100_0000, number, Field(file, at + 12, 4), Field(file, at + 16, 4))
  }

  /** The data behind a header. */
  function ReadData(f: Format, file: seq<byte>, at: nat, h: Header): Option<seq<byte>>
    requires h.Header?
  {
    var start := at + HEADER_SIZE;
    if start + h.length > |file| then None
    else if f.sums(h.number, file[start..start + h.length]) != h.sum then None
    else Some(file[start..start + h.length])
  }

  function ReadRec(f: Format, file: seq<byte>, at: nat): Option<Rec> {
    var h := ReadHeader(f, file, at);
    if !h.Header? then None
    else
      var d := ReadData(f, file, at, h);
      if d.None? then None else Some(Rec(h.term, h.kind, d.value))
  }

  // ---- one entry

  lemma MetaField(kind: nat, number: nat)
    requires kind < 256 && number < 256
    ensures var meta := kind * 0x100_0000 + number * 0x1_0000;
            meta < TWO_32 && meta / 0x100_0000 == kind && (meta * 0x100) % TWO_32 / 0x100_0000 == number
  {
    var meta := kind * 0x100_0000 + number * 0x1_0000;
    assert meta * 0x100 == TWO_32 * kind + number * 0x100_0000;
    ModUnique(meta * 0x100, TWO_32, kind, number * 0x100_0000);
  }

  lemma Widths()
    ensures Pow(4) == TWO_32 && Pow(8) == TWO_64
  {
    assert Pow(2) == 0x1_0000;
    assert Pow(4) == 256 * (256 * Pow(2));
    assert Pow(6) == 256 * (256 * Pow(4));
    assert Pow(8) == 256 * (256 * Pow(6));
  }

  /** Where the fields of the header stand. */
  lemma EncodedFields(f: Format, r: Rec)
    ensures var e := Encode(f, r);
            && e[..20] == HeaderBody(f, r) && e[0..8] == Pack(r.term, 8)
            && e[8..12] == Pack(r.kind * 0x100_0000 + f.number * 0x1_0000, 4)
            && e[12..16] == Pack(|r.data| % TWO_32, 4) && e[16..20] == Pack(f.Sum(r.data), 4)
            && e[20..24] == Pack(f.Sum(HeaderBody(f, r)), 4) && e[24..] == r.data
  {
    hide Pack;
    BodyFields(f, r);
    var e, body := Encode(f, r), HeaderBody(f, r);
    hide HeaderBody;
    assert e[..20] == body;
    assert forall i, j | 0 <= i <= j <= 20 :: e[i..j] == e[..20][i..j];
  }

  lemma BodyFields(f: Format, r: Rec)
    ensures var e := HeaderBody(f, r);
            && e[0..8] == Pack(r.term, 8) && e[8..12] == Pack(r.kind * 0x100_0000 + f.number * 0x1_0000, 4)
            && e[12..16] == Pack(|r.data| % TWO_32, 4) && e[16..20] == Pack(f.Sum(r.data), 4)
  {
    hide Pack;
  }

  /** Bytes that stand in a file at `at` have their own places there. */
  lemma SliceOf(file: seq<byte>, at: nat, bs: seq<byte>, n: nat, i: nat, j: nat)
    requires at + n <= |file| && n <= |bs| && file[at..at + n] == bs[..n] && i <= j <= n
    ensures file[at + i..at + j] == bs[i..j]
  {
    forall k | i <= k < j
      ensures file[at + k] == bs[k]
    {
      assert file[at..at + n][k] == bs[..n][k];
    }
  }

  /** Wherever the header of an entry stands in a file, it is read back, the length modulo 2^32. */
  lemma HeaderReadBack(f: Format, r: Rec, file: seq<byte>, at: nat)
    requires FormatOk(f) && r.term < TWO_64 && r.kind < 256
    requires at + HEADER_SIZE <= |file| && file[at..at + HEADER_SIZE] == Encode(f, r)[..HEADER_SIZE]
    ensures ReadHeader(f, file, at) == Header(r.term, r.kind, f.number, |r.data| % TWO_32, f.Sum(r.data))
  {
    hide Pack, Unpack, Encode, HeaderBody, Pow;
    var e := Encode(f, r);
    Widths();
    MetaField(r.kind, f.number);
    EncodedFields(f, r);
    FieldIs(file, at, e, 0, 8, r.term);
    FieldIs(file, at, e, 8, 4, r.kind * 0x100_0000 + f.number * 0x1_0000);
    FieldIs(file, at, e, 12, 4, |r.data| % TWO_32);
    FieldIs(file, at, e, 16, 4, f.Sum(r.data));
    FieldIs(file, at, e, 20, 4, f.Sum(HeaderBody(f, r)));
    SliceOf(file, at, e, HEADER_SIZE, 0, 20);
    assert e[0..20] == e[..20];
  }

  lemma FieldIs(file: seq<byte>, at: nat, e: seq<byte>, i: nat, width: nat, n: nat)
    requires at + HEADER_SIZE <= |file| && HEADER_SIZE <= |e| && file[at..at + HEADER_SIZE] == e[..HEADER_SIZE]
    requires i + width <= HEADER_SIZE && e[i..i + width] == Pack(n, width) && n < Pow(width)
    ensures Field(file, at + i, width) == n
  {
    SliceOf(file, at, e, HEADER_SIZE, i, i + width);
    UnpackPack(n, width);
    ModUnique(n, Pow(width), 0, n);
  }

  /** An entry whose bytes stand in a file is read back exactly when its data is shorter than 2^32 bytes. */
  lemma RoundTrip(f: Format, r: Rec, file: seq<byte>, at: nat)
    requires FormatOk(f) && r.term < TWO_64 && r.kind < 256
    requires at + |Encode(f, r)| <= |file| && file[at..at + |Encode(f, r)|] == Encode(f, r)
    ensures ReadRec(f, file, at) == Some(r) <==> |r.data| < TWO_32
  {
    hide Pack, HeaderBody, ReadHeader;
    var all := Encode(f, r);
    assert file[at..at + HEADER_SIZE] == file[at..at + |all|][..HEADER_SIZE];
    HeaderReadBack(f, r, file, at);
    if |r.data| < TWO_32 {
      assert file[at + HEADER_SIZE..at + HEADER_SIZE + |r.data|] == file[at..at + |all|][HEADER_SIZE..] == r.data;
    }
  }

  // ---- a whole file

  lemma {:induction false} EncodeAllConcat(f: Format, a: seq<Rec>, b: seq<Rec>)
    ensures EncodeAll(f, a + b) == EncodeAll(f, a) + EncodeAll(f, b)
  {
    if b == [] {
      assert a + b == a;
    } else {
      var n := |b| - 1;
      assert (a + b)[..|a| + n] == a + b[..n];
      EncodeAllConcat(f, a, b[..n]);
    }
  }

  /** Where the entry at position `i` starts. */
  function Offset(f: Format, rs: seq<Rec>, i: nat): nat
    requires i <= |rs|
  {
    |EncodeAll(f, rs[..i])|
  }

  /** Each entry stands between its own offset and the next one. */
  lemma EntryAt(f: Format, rs: seq<Rec>, i: nat)
    requires i < |rs|
    ensures Offset(f, rs, i + 1) == Offset(f, rs, i) + |Encode(f, rs[i])| <= |EncodeAll(f, rs)|
    ensures EncodeAll(f, rs)[Offset(f, rs, i)..Offset(f, rs, i + 1)] == Encode(f, rs[i])
    ensures EncodeAll(f, rs[..i]) == EncodeAll(f, rs)[..Offset(f, rs, i)]
  {
    hide Encode, EncodeAll;
    EntryParts(f, rs, i);
    Slices(EncodeAll(f, rs[..i]), Encode(f, rs[i]), EncodeAll(f, rs[i + 1..]));
  }

  lemma EntryParts(f: Format, rs: seq<Rec>, i: nat)
    requires i < |rs|
    ensures EncodeAll(f, rs[..i + 1]) == EncodeAll(f, rs[..i]) + Encode(f, rs[i])
    ensures EncodeAll(f, rs) == EncodeAll(f, rs[..i + 1]) + EncodeAll(f, rs[i + 1..])
  {
    hide Encode;
    assert rs[..i + 1][..i] == rs[..i];
    assert rs == rs[..i + 1] + rs[i + 1..];
    EncodeAllConcat(f, rs[..i + 1], rs[i + 1..]);
  }

  lemma Slices(a: seq<byte>, b: seq<byte>, c: seq<byte>)
    ensures (a + b + c)[..|a|] == a && (a + b + c)[|a|..|a + b|] == b
  {
  }

  lemma EncodeOne(f: Format, r: Rec)
    ensures EncodeAll(f, [r]) == Encode(f, r)
  {
    assert [r][..0] == [];
  }

  /** The index of a file: the offset and the term of each entry. */
  function Index(f: Format, rs: seq<Rec>): (r: seq<(nat, nat)>)
    ensures |r| == |rs|
  {
    seq(|rs|, i requires 0 <= i < |rs| => (Offset(f, rs, i), rs[i].term))
  }

  lemma IndexPrefix(f: Format, rs: seq<Rec>, k: nat)
    requires k <= |rs|
    ensures Index(f, rs[..k]) == Index(f, rs)[..k]
  {
    assert forall i | 0 <= i < k :: rs[..k][..i] == rs[..i];
  }

  // ---- loading

  datatype Loaded = Loaded(index: seq<(nat, nat)>, end: nat, ok: bool)

  /** Reads entries from `at` on until the file ends, ends early, or is damaged. */
  function LoadFrom(f: Format, file: seq<byte>, at: nat): (l: Loaded)
    ensures at <= |file| ==> at <= l.end <= |file|
    decreases |file| - at
  {
    if at >= |file| then Loaded([], at, true)
    else
      var h := ReadHeader(f, file, at);
      match h
      case Short => Loaded([], at, true)
      case Damaged => Loaded([], at, false)
      case Header(term, kind, _, length, _) =>
        if at + HEADER_SIZE + length > |file| then Loaded([], at, true)
        else if kind == CONFIGURATION && ReadData(f, file, at, h).None? then Loaded([], at, true)
        else if kind == CONFIGURATION && !f.parses(ReadData(f, file, at, h).value) then Loaded([], at, false)
        else
          var rest := LoadFrom(f, file, at + HEADER_SIZE + length);
          Loaded([(at, term)] + rest.index, rest.end, rest.ok)
  }

  /** How many of the entries lie wholly within the first `n` bytes. */
  function Whole(f: Format, rs: seq<Rec>, n: nat): (k: nat)
    ensures k <= |rs| && Offset(f, rs, k) <= n
    ensures k < |rs| ==> n < Offset(f, rs, k + 1)
  {
    if |EncodeAll(f, rs)| <= n then
      assert rs[..|rs|] == rs;
      |rs|
    else
      var last := |rs| - 1;
      var k := Whole(f, rs[..last], n);
      assert rs[..last][..k] == rs[..k];
      assert k < last ==> rs[..last][..k + 1] == rs[..k + 1];
      assert rs[..|rs|] == rs;
      k
  }

  /** A file that was cut at any byte: loading finds exactly the entries that lie wholly within what is left. */
  lemma {:induction false} TornTail(f: Format, rs: seq<Rec>, n: nat, i: nat)
    requires FormatOk(f) && (forall r | r in rs :: RecOk(f, r)) && n <= |EncodeAll(f, rs)| && i <= Whole(f, rs, n)
    ensures var k, file := Whole(f, rs, n), EncodeAll(f, rs)[..n];
            LoadFrom(f, file, Offset(f, rs, i)) == Loaded(Index(f, rs)[i..k], Offset(f, rs, k), true)
    decreases Whole(f, rs, n) - i
  {
    hide EncodeAll, Offset, Whole, ReadHeader;
    var k, all := Whole(f, rs, n), EncodeAll(f, rs);
    var file, at := all[..n], Offset(f, rs, i);
    if i < k {
      EntryReadable(f, rs, n, i, k);
      TornTail(f, rs, n, i + 1);
      assert Index(f, rs)[i..k] == [(at, rs[i].term)] + Index(f, rs)[i + 1..k];
    } else if at < n {
      TailUnreadable(f, rs, n, k);
    }
  }

  /** An entry wholly within the file is read back. */
  lemma EntryReadable(f: Format, rs: seq<Rec>, n: nat, i: nat, k: nat)
    requires FormatOk(f) && (forall r | r in rs :: RecOk(f, r)) && n <= |EncodeAll(f, rs)| && k == Whole(f, rs, n) && i < k
    ensures var file, at, r := EncodeAll(f, rs)[..n], Offset(f, rs, i), rs[i];
            && at + HEADER_SIZE + |r.data| == Offset(f, rs, i + 1) <= n
            && ReadHeader(f, file, at) == Header(r.term, r.kind, f.number, |r.data|, f.Sum(r.data))
            && ReadRec(f, file, at) == Some(r) && RecOk(f, r)
  {
    hide Encode, EncodeAll, Offset, Whole, ReadHeader, ReadRec;
    var all, at := EncodeAll(f, rs), Offset(f, rs, i);
    var file := all[..n];
    assert rs[i] in rs;
    EntryAt(f, rs, i);
    OffsetsGrow(f, rs, i + 1, k);
    var size := |Encode(f, rs[i])|;
    assert file[at..at + size] == all[at..at + size];
    CutHeader(f, rs[i], all, at, n);
    RoundTrip(f, rs[i], file, at);
  }

  lemma {:induction false} OffsetsGrow(f: Format, rs: seq<Rec>, i: nat, k: nat)
    requires i <= k <= |rs|
    ensures Offset(f, rs, i) <= Offset(f, rs, k)
    decreases k - i
  {
    if i < k {
      EntryAt(f, rs, i);
      OffsetsGrow(f, rs, i + 1, k);
    }
  }

  /** The entry that the cut goes through is not taken for an entry. */
  lemma TailUnreadable(f: Format, rs: seq<Rec>, n: nat, k: nat)
    requires FormatOk(f) && (forall r | r in rs :: RecOk(f, r)) && n <= |EncodeAll(f, rs)| && k == Whole(f, rs, n)
    requires Offset(f, rs, k) < n
    ensures LoadFrom(f, EncodeAll(f, rs)[..n], Offset(f, rs, k)) == Loaded([], Offset(f, rs, k), true)
  {
    hide Encode, EncodeAll, Offset, Whole;
    var all, at := EncodeAll(f, rs), Offset(f, rs, k);
    var file := all[..n];
    NotAll(f, rs, n, k);
    assert rs[k] in rs;
    EntryAt(f, rs, k);
    if at + HEADER_SIZE <= n {
      CutHeader(f, rs[k], all, at, n);
    }
  }

  lemma NotAll(f: Format, rs: seq<Rec>, n: nat, k: nat)
    requires n <= |EncodeAll(f, rs)| && k == Whole(f, rs, n) && Offset(f, rs, k) < n
    ensures k < |rs| && n < Offset(f, rs, k + 1)
  {
    assert rs[..|rs|] == rs;
  }

  /** A header before the cut is read back. */
  lemma CutHeader(f: Format, r: Rec, all: seq<byte>, at: nat, n: nat)
    requires FormatOk(f) && RecOk(f, r) && at + |Encode(f, r)| <= |all| && all[at..at + |Encode(f, r)|] == Encode(f, r)
    requires at + HEADER_SIZE <= n <= |all|
    ensures ReadHeader(f, all[..n], at) == Header(r.term, r.kind, f.number, |r.data|, f.Sum(r.data))
  {
    hide Encode, ReadHeader;
    var e := Encode(f, r);
    assert e[..|e|] == e;
    SliceOf(all, at, e, |e|, 0, HEADER_SIZE);
    assert all[..n][at..at + HEADER_SIZE] == all[at..at + HEADER_SIZE];
    assert e[0..HEADER_SIZE] == e[..HEADER_SIZE];
    HeaderReadBack(f, r, all[..n], at);
  }

  /** What is left of a file that was cut. */
  lemma PrefixFacts(f: Format, rs: seq<Rec>, n: nat, k: nat)
    requires n <= |EncodeAll(f, rs)| && k == Whole(f, rs, n)
    ensures Offset(f, rs, 0) == 0 && Offset(f, rs, k) == |EncodeAll(f, rs[..k])| <= n
    ensures Index(f, rs)[0..k] == Index(f, rs[..k]) && EncodeAll(f, rs[..k]) == EncodeAll(f, rs)[..n][..Offset(f, rs, k)]
  {
    hide Whole;
    IndexPrefix(f, rs, k);
    assert rs[..0] == [];
    if k < |rs| {
      EntryAt(f, rs, k);
    } else {
      assert rs[..k] == rs;
    }
  }

  /** A header is read the same from a buffer that holds it. */
  lemma HeaderInBuffer(f: Format, file: seq<byte>, at: nat, n: nat)
    requires HEADER_SIZE <= n && at + n <= |file|
    ensures ReadHeader(f, file[at..at + n], 0) == ReadHeader(f, file, at)
  {
    var buf := file[at..at + n];
    SliceOf(file, at, buf, n, 0, 8);
    SliceOf(file, at, buf, n, 8, 12);
    SliceOf(file, at, buf, n, 12, 16);
    SliceOf(file, at, buf, n, 16, 20);
    SliceOf(file, at, buf, n, 20, 24);
    SliceOf(file, at, buf, n, 0, HEADER_SIZE - 4);
  }

  // ---- damaged data

  /** The file of the entries, but for the data of the entry `j`: its checksum tells the difference. */
  ghost predicate DamagedAt(f: Format, rs: seq<Rec>, file: seq<byte>, j: nat)
    requires j < |rs|
  {
    && |file| == |EncodeAll(f, rs)| >= Offset(f, rs, j) + HEADER_SIZE + |rs[j].data|
    && (forall i | 0 <= i < |rs| :: HeaderStands(f, rs, file, i) && (i != j ==> DataStands(f, rs, file, i)))
    && (var at := Offset(f, rs, j) + HEADER_SIZE; f.Sum(file[at..at + |rs[j].data|]) != f.Sum(rs[j].data))
  }

  ghost predicate HeaderStands(f: Format, rs: seq<Rec>, file: seq<byte>, i: nat)
    requires i < |rs|
  {
    var at := Offset(f, rs, i);
    at + HEADER_SIZE + |rs[i].data| <= |file| && file[at..at + HEADER_SIZE] == Encode(f, rs[i])[..HEADER_SIZE]
  }

  ghost predicate DataStands(f: Format, rs: seq<Rec>, file: seq<byte>, i: nat)
    requires i < |rs|
  {
    var at := Offset(f, rs, i) + HEADER_SIZE;
    at + |rs[i].data| <= |file| && file[at..at + |rs[i].data|] == rs[i].data
  }

  /** What loading makes of damaged data. A configuration ends it without an error, and every entry from there on is
      gone; any other entry keeps its place in the index, and only reading it fails. */
  lemma {:induction false} DamagedData(f: Format, rs: seq<Rec>, file: seq<byte>, j: nat, i: nat)
    requires FormatOk(f) && (forall r | r in rs :: RecOk(f, r)) && j < |rs| && i <= |rs| && DamagedAt(f, rs, file, j)
    ensures LoadFrom(f, file, Offset(f, rs, i)) ==
              if i <= j && rs[j].kind == CONFIGURATION then Loaded(Index(f, rs)[i..j], Offset(f, rs, j), true)
              else Loaded(Index(f, rs)[i..], |file|, true)
    ensures ReadRec(f, file, Offset(f, rs, j)) == None
    decreases |rs| - i
  {
    hide EncodeAll, Encode, Offset, ReadHeader;
    HeaderStood(f, rs, file, j);
    if i == |rs| {
      AllOffset(f, rs);
    } else {
      HeaderStood(f, rs, file, i);
      if i != j || rs[j].kind != CONFIGURATION {
        DamagedData(f, rs, file, j, i + 1);
        IndexFrom(f, rs, i, if i < j && rs[j].kind == CONFIGURATION then j else |rs|);
        if i != j && rs[i].kind == CONFIGURATION {
          assert DataStands(f, rs, file, i);
        }
      }
    }
  }

  lemma IndexFrom(f: Format, rs: seq<Rec>, i: nat, end: nat)
    requires i < end <= |rs|
    ensures Index(f, rs)[i..end] == [(Offset(f, rs, i), rs[i].term)] + Index(f, rs)[i + 1..end]
  {
    hide Offset;
  }

  lemma AllOffset(f: Format, rs: seq<Rec>)
    ensures Offset(f, rs, |rs|) == |EncodeAll(f, rs)|
  {
    assert rs[..|rs|] == rs;
  }

  lemma HeaderStood(f: Format, rs: seq<Rec>, file: seq<byte>, i: nat)
    requires FormatOk(f) && (forall r | r in rs :: RecOk(f, r)) && i < |rs| && HeaderStands(f, rs, file, i)
    ensures var at, r := Offset(f, rs, i), rs[i];
            && at + HEADER_SIZE + |r.data| == Offset(f, rs, i + 1) <= |file| && RecOk(f, r)
            && ReadHeader(f, file, at) == Header(r.term, r.kind, f.number, |r.data|, f.Sum(r.data))
  {
    hide EncodeAll, Encode, Offset, ReadHeader;
    assert rs[i] in rs;
    EntryAt(f, rs, i);
    HeaderReadBack(f, rs[i], file, Offset(f, rs, i));
  }
}
