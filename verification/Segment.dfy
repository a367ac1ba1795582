/** A segment: one file of the log and the index that finds its entries. */
module Segments {
  import opened Types
  import opened SegmentCodec

  datatype LogMeta = LogMeta(offset: nat, length: nat, term: nat)

  class Segment {
    const format: Format
    const firstIndex: nat
    var lastIndex: int
    var isOpen: bool
    var file: seq<byte>
    var bytes: nat
    var offsetAndTerm: seq<(nat, nat)>
    ghost var recs: seq<Rec>

    /** The file holds the entries and nothing else, and the index tells where each of them is. */
    ghost predicate Valid()
      reads this
    {
      && FormatOk(format) && (forall r | r in recs :: RecOk(format, r))
      && file == EncodeAll(format, recs) && bytes == |file|
      && offsetAndTerm == Index(format, recs) && lastIndex == firstIndex + |recs| - 1
    }

    /** A new, empty segment. */
    constructor (format: Format, first: nat)
      requires FormatOk(format)
      ensures Valid() && isOpen && recs == [] && firstIndex == first && this.format == format
    {
      this.format, firstIndex := format, first;
      lastIndex, isOpen, file, bytes, offsetAndTerm, recs := first - 1, true, [], 0, [], [];
    }

    /** A segment found on disk, not loaded yet. */
    constructor Found(format: Format, first: nat, last: int, open: bool, file: seq<byte>)
      ensures this.file == file && firstIndex == first && this.format == format && isOpen == open && lastIndex == last
      ensures offsetAndTerm == [] && bytes == 0
    {
      this.format, firstIndex, this.file := format, first, file;
      lastIndex, isOpen, bytes, offsetAndTerm, recs := last, open, 0, [], [];
    }

    /** Writes all of `buf`, in as many pieces as the system takes it. */
    method WriteAll(buf: seq<byte>)
      modifies this`file
      ensures file == old(file) + buf
    {
      var written := 0;
      while written < |buf|
        invariant written <= |buf| && file == old(file) + buf[..written]
      {
        var n: nat :| 0 < n <= |buf| - written;
        assert buf[..written] + buf[written..written + n] == buf[..written + n];
        file := file + buf[written..written + n];
        written := written + n;
      }
      assert buf[..written] == buf;
    }

    /** Appends an entry to an open segment; the entry must be the next one. */
    method Append(index: int, rec: Rec) returns (code: int)
      requires Valid() && RecOk(format, rec)
      modifies this
      ensures Valid() && isOpen == old(isOpen)
      ensures code == if !old(isOpen) then EINVAL else if index != old(lastIndex) + 1 then ERANGE else 0
      ensures recs == if code == 0 then old(recs) + [rec] else old(recs)
    {
      hide EncodeAll, Encode;
      if !isOpen {
        return EINVAL;
      }
      if index != lastIndex + 1 {
        return ERANGE;
      }
      var data := Encode(format, rec);
      AppendedFacts(format, recs, rec);
      WriteAll(data);
      offsetAndTerm := offsetAndTerm + [(bytes, rec.term)];
      lastIndex := lastIndex + 1;
      bytes := bytes + |data|;
      recs := recs + [rec];
      code := 0;
    }

    /** What the index says about an entry. */
    method GetMeta(index: int) returns (meta: Option<LogMeta>)
      requires Valid()
      ensures meta == if firstIndex <= index <= lastIndex
                      then Some(LogMeta(Offset(format, recs, index - firstIndex), |Encode(format, recs[index - firstIndex])|,
                                        recs[index - firstIndex].term))
                      else None
    {
      hide EncodeAll, Encode;
      if index > lastIndex || index < firstIndex {
        return None;
      } else if lastIndex == firstIndex - 1 {
        return None;
      }
      var i := index - firstIndex;
      EntryAt(format, recs, i);
      if index == lastIndex {
        assert recs[..i + 1] == recs;
      }
      var next := if index < lastIndex then offsetAndTerm[i + 1].0 else bytes;
      meta := Some(LogMeta(offsetAndTerm[i].0, next - offsetAndTerm[i].0, offsetAndTerm[i].1));
    }

    /** Reads header and data with one read of `hint` bytes, and a second one when that was not enough. Unless the first
        read alone runs beyond the file, the hint does not matter. */
    method LoadEntry(offset: nat, hint: nat) returns (rec: Option<Rec>)
      ensures rec == if offset + Types.Max(hint, HEADER_SIZE) > |file| then None else ReadRec(format, file, offset)
    {
      hide ReadHeader;
      var toRead := Types.Max(hint, HEADER_SIZE);
      if offset + toRead > |file| {
        return None;
      }
      var buf := file[offset..offset + toRead];
      var h := ReadHeader(format, buf, 0);
      HeaderInBuffer(format, file, offset, toRead);
      if !h.Header? {
        return None;
      }
      var length := HEADER_SIZE + h.length;
      if |buf| < length {
        if offset + length > |file| {
          return None;
        }
        assert buf + file[offset + |buf|..offset + length] == file[offset..offset + length];
        buf := buf + file[offset + |buf|..offset + length];
      } else if |buf| > length {
        assert buf[..length] == file[offset..offset + length];
        buf := buf[..length];
      }
      var data := buf[HEADER_SIZE..];
      assert data == file[offset + HEADER_SIZE..offset + length];
      rec := if format.sums(h.number, data) == h.sum then Some(Rec(h.term, h.kind, data)) else None;
    }

    /** The entry at an index is the one that was appended there. */
    method Get(index: int) returns (rec: Option<Rec>)
      requires Valid()
      ensures rec == if firstIndex <= index <= lastIndex then Some(recs[index - firstIndex]) else None
    {
      hide EncodeAll, Encode, ReadRec, Offset;
      var meta := GetMeta(index);
      if meta.None? {
        return None;
      }
      var i := index - firstIndex;
      EntryAt(format, recs, i);
      assert recs[i] in recs;
      RoundTrip(format, recs[i], file, meta.value.offset);
      rec := LoadEntry(meta.value.offset, meta.value.length);
      assert rec.value.term == meta.value.term;
    }

    method GetTerm(index: int) returns (term: nat)
      requires Valid()
      ensures term == if firstIndex <= index <= lastIndex then recs[index - firstIndex].term else 0
    {
      var meta := GetMeta(index);
      term := if meta.None? then 0 else meta.value.term;
    }

    /** Cuts the file behind an entry; a closed segment becomes an open one first. */
    method Truncate(lastIndexKept: nat) returns (code: int)
      requires Valid() && firstIndex - 1 <= lastIndexKept
      modifies this
      ensures Valid() && code == 0
      ensures recs == if lastIndexKept >= old(lastIndex) then old(recs) else old(recs)[..lastIndexKept + 1 - firstIndex]
      ensures isOpen == (old(isOpen) || lastIndexKept < old(lastIndex))
    {
      hide EncodeAll, Encode;
      code := 0;
      if lastIndexKept >= lastIndex {
        return;
      }
      var n := lastIndexKept + 1 - firstIndex;
      var size := offsetAndTerm[n].0;
      EntryAt(format, recs, n);
      IndexPrefix(format, recs, n);
      if !isOpen {
        isOpen := true;
      }
      file := file[..size];
      offsetAndTerm := offsetAndTerm[..n];
      lastIndex := lastIndexKept;
      bytes := size;
      recs := recs[..n];
    }

    /** Rebuilds the index from the file and cuts off what is not a whole entry. An open segment may end anywhere; a closed
        one must hold the number of entries its name says. A damaged header and a configuration that cannot be parsed are
        errors; damaged data is not: of a configuration it ends the loading, of another entry it goes unnoticed. */
    method Load() returns (code: int)
      requires offsetAndTerm == []
      modifies this
      ensures var l := LoadFrom(format, old(file), 0);
              && code == (if l.ok && (isOpen || |l.index| == lastIndex + 1 - firstIndex) then 0 else -1)
              && isOpen == old(isOpen) && recs == old(recs)
              && (code == 0 ==> offsetAndTerm == l.index && bytes == l.end && file == old(file)[..l.end]
                                && lastIndex == firstIndex + |l.index| - 1)
    {
      hide ReadHeader, ReadData;
      var at, ok, more := 0, true, true;
      ghost var all := LoadFrom(format, file, 0);
      while more && at < |file|
        invariant at <= |file| && file == old(file) && isOpen == old(isOpen) && recs == old(recs) && lastIndex == old(lastIndex)
        invariant more ==> ok
        invariant if more then (var rest := LoadFrom(format, file, at);
                                all == Loaded(offsetAndTerm + rest.index, rest.end, rest.ok))
                  else all == Loaded(offsetAndTerm, at, ok)
        decreases |file| - at, more
      {
        var h := ReadHeader(format, file, at);
        if h.Short? {
          more := false;
        } else if h.Damaged? {
          ok, more := false, false;
        } else if at + HEADER_SIZE + h.length > |file| {
          more := false;
        } else {
          if h.kind == CONFIGURATION {
            var d := ReadData(format, file, at, h);
            if d.None? {
              more := false;
            } else if !format.parses(d.value) {
              ok, more := false, false;
            }
          }
          if more {
            ghost var rest := LoadFrom(format, file, at + HEADER_SIZE + h.length);
            assert offsetAndTerm + ([(at, h.term)] + rest.index) == offsetAndTerm + [(at, h.term)] + rest.index;
            offsetAndTerm := offsetAndTerm + [(at, h.term)];
            at := at + HEADER_SIZE + h.length;
          }
        }
      }
      assert all == Loaded(offsetAndTerm, at, ok) by {
        if more {
          assert offsetAndTerm + [] == offsetAndTerm;
        }
      }
      if !ok || (!isOpen && |offsetAndTerm| != lastIndex + 1 - firstIndex) {
        return -1;
      }
      if isOpen {
        lastIndex := firstIndex + |offsetAndTerm| - 1;
      }
      file := file[..at];
      bytes := at;
      code := 0;
    }
  }

  lemma AppendedFacts(f: Format, rs: seq<Rec>, r: Rec)
    ensures EncodeAll(f, rs + [r]) == EncodeAll(f, rs) + Encode(f, r)
    ensures Index(f, rs + [r]) == Index(f, rs) + [(|EncodeAll(f, rs)|, r.term)]
  {
    hide Encode;
    EncodeAllConcat(f, rs, [r]);
    EncodeOne(f, r);
    assert (rs + [r])[..|rs|] == rs;
    assert forall i | 0 <= i < |rs| :: (rs + [r])[..i] == rs[..i];
  }

  /** What a crash leaves of an open segment: loading it brings back exactly the entries that were written wholly. */
  method Recover(format: Format, first: nat, ghost recs: seq<Rec>, n: nat, file: seq<byte>) returns (s: Segment, code: int)
    requires FormatOk(format) && (forall r | r in recs :: RecOk(format, r)) && n <= |EncodeAll(format, recs)|
    requires file == EncodeAll(format, recs)[..n]
    ensures code == 0 && s.Valid() && s.isOpen && s.firstIndex == first && s.recs == recs[..Whole(format, recs, n)]
  {
    hide EncodeAll, LoadFrom;
    s := new Segment.Found(format, first, first - 1, true, file);
    TornTail(format, recs, n, 0);
    PrefixFacts(format, recs, n, Whole(format, recs, n));
    code := s.Load();
    s.recs := recs[..Whole(format, recs, n)];
  }
}
