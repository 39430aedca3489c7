/** Reading back a written log of which only a prefix survived. */
module TornLog {
  import opened Optional
  import opened Crc32c
  import opened LogFormat
  import opened LogReader

  // ---------------------------------------------------------------- one physical record

  lemma HeaderFields(t: Byte, data: seq<Byte>)
    requires |data| <= 0xffff
    ensures var h := Header(t, data);
            && h[4] as nat + (h[5] as nat) * 256 == |data| && h[6] == t
            && Unmask(DecodeFixed32(h[..4])) == Value([t] + data)
  {
    var crc := Extend(Value([t]), data);
    assert crc == Value([t] + data) by { ExtendConcat(0, [t], data); }
    hide Extend, Value;
    var h := Header(t, data);
    assert h[..4] == EncodeFixed32(Mask(crc));
    DecodeEncodeFixed32(Mask(crc));
    UnmaskMask(crc);
    LengthBytes(|data|);
  }

  lemma LengthBytes(n: nat)
    requires n <= 0xffff
    ensures LowByte(n) as nat + (LowByte(n / 256) as nat) * 256 == n
  {
  }

  lemma ParseWritten(s: State, t: Byte, data: seq<Byte>, rest: seq<Byte>)
    requires |data| <= 0xffff && t != ZERO_TYPE && s.buffer == Physical(t, data) + rest
    ensures ParseRecord(s) == Outcome(t, data, s.(buffer := rest))
  {
    assert HEADER_SIZE == 7;
    hide *;
    HeaderFields(t, data);
    BufferParts(s.buffer, t, data, rest);
    ParseWhole(s, t, |data|);
  }

  lemma BufferParts(b: seq<Byte>, t: Byte, data: seq<Byte>, rest: seq<Byte>)
    requires |data| <= 0xffff && b == Physical(t, data) + rest && Header(t, data)[6] == t
    ensures var h := Header(t, data);
            && |b| == HEADER_SIZE + |data| + |rest| && |h| == HEADER_SIZE == 7
            && b[..4] == h[..4] && b[4] == h[4] && b[5] == h[5] && b[6] == h[6]
            && b[6..HEADER_SIZE + |data|] == [t] + data
            && b[HEADER_SIZE..HEADER_SIZE + |data|] == data && b[HEADER_SIZE + |data|..] == rest
  {
    hide Header;
  }

  lemma ParseWhole(s: State, t: Byte, length: nat)
    requires HEADER_SIZE + length <= |s.buffer| && s.buffer[4] as nat + (s.buffer[5] as nat) * 256 == length
    requires s.buffer[6] == t != ZERO_TYPE && Unmask(DecodeFixed32(s.buffer[..4])) == Value(s.buffer[6..HEADER_SIZE + length])
    ensures ParseRecord(s) ==
            Outcome(t, s.buffer[HEADER_SIZE..HEADER_SIZE + length], s.(buffer := s.buffer[HEADER_SIZE + length..]))
  {
    hide Unmask, DecodeFixed32, Value;
  }

  lemma ParseTorn(s: State, t: Byte, data: seq<Byte>, m: nat)
    requires |data| <= 0xffff && HEADER_SIZE <= m < HEADER_SIZE + |data| && s.eof && s.buffer == Physical(t, data)[..m]
    ensures ParseRecord(s) == Outcome(EOF_CODE, [], s.(buffer := []))
  {
    HeaderFields(t, data);
    hide Header, Unmask, DecodeFixed32, Value;
    var h, b := Header(t, data), s.buffer;
    assert b[4] == h[4] && b[5] == h[5];
  }

  // ---------------------------------------------------------------- where the reader stands

  /** The rest of the block of `p`, as far as the file goes, is in the buffer. */
  ghost predicate Loaded(file: seq<Byte>, s: State, p: nat) {
    && p <= |file|
    && s.end == (if p + Leftover(p) <= |file| then p + Leftover(p) else |file|)
    && s.buffer == file[p..s.end] && s.eof == (p + Leftover(p) > |file|)
  }

  /** The reader stands before a block it has not loaded yet. */
  ghost predicate BeforeBlock(file: seq<Byte>, s: State, p: nat) {
    p <= |file| && p % BLOCK_SIZE == 0 && s.buffer == [] && s.end == p && !s.eof
  }

  ghost predicate At(file: seq<Byte>, s: State, p: nat) {
    Loaded(file, s, p) || BeforeBlock(file, s, p)
  }

  lemma LoadNext(file: seq<Byte>, s: State, p: nat)
    requires p <= |file| && p % BLOCK_SIZE == 0 && s.end == p && !s.eof && |s.buffer| < HEADER_SIZE
    ensures Loaded(file, NextBlock(file, s), p) && ReadPhysical(file, s) == ReadPhysical(file, NextBlock(file, s))
    ensures NextBlock(file, s).drops == s.drops
  {
    hide ParseRecord;
    assert Leftover(p) == BLOCK_SIZE;
  }

  /** Getting past the trailer: either the reader is loaded behind it, or the file ends first. */
  lemma PassTrailer(file: seq<Byte>, s: State, p: nat) returns (s1: State)
    requires At(file, s, p)
    ensures s1.end <= |file| && s.end <= |file| && s1.drops == s.drops
    ensures p + Trailer(p) <= |file| ==> Loaded(file, s1, p + Trailer(p)) && ReadPhysical(file, s) == ReadPhysical(file, s1)
    ensures p + Trailer(p) > |file| ==> ReadPhysical(file, s) == Outcome(EOF_CODE, [], s.(buffer := []))
  {
    hide ParseRecord;
    if BeforeBlock(file, s, p) {
      assert Trailer(p) == 0;
      LoadNext(file, s, p);
      s1 := NextBlock(file, s);
    } else if Trailer(p) == 0 || p + Trailer(p) > |file| {
      s1 := s;
    } else {
      AfterTrailer(p);
      LoadNext(file, s, p + Trailer(p));
      s1 := NextBlock(file, s);
    }
  }

  /** The file `w` continues at `p` with the bytes of a record, or of its rest. */
  ghost predicate Continues(w: seq<Byte>, p: nat, data: seq<Byte>, begin: bool) {
    var e := Emit(p, data, begin);
    p + |e| <= |w| && w[p..p + |e|] == e
  }

  lemma ContinuesFragment(w: seq<Byte>, p: nat, data: seq<Byte>, begin: bool)
    requires Continues(w, p, data, begin)
    ensures var n := FragmentLength(p, data);
            var q := FragmentEnd(p, data);
            && q <= |w| && p + Trailer(p) + HEADER_SIZE + n == q
            && w[p + Trailer(p)..q] == Physical(FragmentType(begin, n == |data|), data[..n])
            && (n < |data| ==> Continues(w, q, data[n..], false) && p + |Emit(p, data, begin)| == q + |Emit(q, data[n..], false)|)
            && (n == |data| ==> p + |Emit(p, data, begin)| == q)
  {
    hide Emit, Physical, FragmentLength;
    var n, q := FragmentLength(p, data), FragmentEnd(p, data);
    EmitUnfold(p, data, begin);
    var f, e := Fragment(p, data, begin), Emit(p, data, begin);
    assert e[..|f|] == f;
    assert w[p..p + |e|][..|f|] == w[p..q];
    assert w[p..q][Trailer(p)..] == w[p + Trailer(p)..q];
    assert f[Trailer(p)..] == Physical(FragmentType(begin, n == |data|), data[..n]);
    if n < |data| {
      var e2 := Emit(q, data[n..], false);
      assert e[|f|..] == e2;
      assert w[p..p + |e|][|f|..] == w[q..q + |e2|];
    }
  }

  /** A header loaded in full belongs to one block, and after the record the reader is At its end. */
  lemma ReadLoaded(w: seq<Byte>, n: nat, s: State, p: nat, t: Byte, data: seq<Byte>)
    requires n <= |w| && Loaded(w[..n], s, p) && |data| <= 0xffff && t != ZERO_TYPE
    requires HEADER_SIZE + |data| <= Leftover(p)
    requires p + HEADER_SIZE + |data| <= |w| && w[p..p + HEADER_SIZE + |data|] == Physical(t, data)
    ensures var q := p + HEADER_SIZE + |data|;
            var o := ReadPhysical(w[..n], s);
            && o.state.drops == s.drops
            && (q <= n ==> o.code == t as nat && o.fragment == data && At(w[..n], o.state, q))
            && (q > n ==> o.code == EOF_CODE)
  {
    hide Physical, ParseRecord;
    var file, q := w[..n], p + HEADER_SIZE + |data|;
    if q <= n {
      var rest := file[q..s.end];
      assert file[p..q] == w[p..q];
      assert s.buffer == file[p..q] + rest;
      ParseWritten(s, t, data, rest);
      SameBlock(p, HEADER_SIZE + |data|);
    } else if |s.buffer| >= HEADER_SIZE {
      assert s.end == n && s.buffer == w[p..q][..n - p];
      ParseTorn(s, t, data, n - p);
    }
  }

  lemma SameBlock(p: nat, m: nat)
    requires m <= Leftover(p)
    ensures m < Leftover(p) ==> p + m + Leftover(p + m) == p + Leftover(p)
    ensures m == Leftover(p) ==> (p + m) % BLOCK_SIZE == 0
  {
    if m == Leftover(p) { BlockEnd(p); }
  }

  lemma PhysicalStep(w: seq<Byte>, n: nat, s: State, p: nat, data: seq<Byte>, begin: bool)
    requires n <= |w| && At(w[..n], s, p) && Continues(w, p, data, begin)
    ensures s.end <= n
    ensures var len := FragmentLength(p, data);
            var q := FragmentEnd(p, data);
            var o := ReadPhysical(w[..n], s);
            && o.state.drops == s.drops
            && (q <= n ==> o.code == FragmentType(begin, len == |data|) as nat && o.fragment == data[..len] && At(w[..n], o.state, q))
            && (q > n ==> o.code == EOF_CODE)
  {
    hide *;
    AtWithin(w[..n], s, p);
    ContinuesFragment(w, p, data, begin);
    var len := FragmentLength(p, data);
    FragmentInBlock(p, data, begin);
    var s1 := PassTrailer(w[..n], s, p);
    if p + Trailer(p) <= n {
      ReadLoaded(w, n, s1, p + Trailer(p), FragmentType(begin, len == |data|), data[..len]);
    }
  }

  lemma FragmentInBlock(p: nat, data: seq<Byte>, begin: bool)
    ensures var n := FragmentLength(p, data);
            && n <= |data| && n <= 0xffff && HEADER_SIZE + n <= Leftover(p + Trailer(p))
            && FragmentType(begin, n == |data|) != ZERO_TYPE
            && FragmentEnd(p, data) == p + Trailer(p) + HEADER_SIZE + n && FragmentEnd(p, data) > p
  {
    AfterTrailer(p);
  }

  /** How `ReadRecord` reacts to the fragments of an intact record. */
  lemma TakeFragment(o: Outcome, begin: bool, end: bool, scratch: seq<Byte>)
    requires o.code == FragmentType(begin, end) as nat && (begin ==> scratch == [])
    ensures !end ==> Take(o, !begin, scratch) == More(o.state, true, scratch + o.fragment)
    ensures end ==> Take(o, !begin, scratch) == Done(Some(scratch + o.fragment), o.state)
  {
    assert begin ==> scratch + o.fragment == o.fragment;
  }

  lemma ReadFromUnfold(file: seq<Byte>, s: State, inFragment: bool, scratch: seq<Byte>)
    requires s.end <= |file|
    ensures var a := Take(ReadPhysical(file, s), inFragment, scratch);
            && (a.Done? ==> ReadFrom(file, s, inFragment, scratch) == Record(a.record, a.final))
            && (a.More? ==> a.state.end <= |file| && ReadFrom(file, s, inFragment, scratch) == ReadFrom(file, a.state, a.inFragment, a.scratch))
  {
    hide ReadPhysical, Take;
  }

  lemma TakeEof(o: Outcome, inFragment: bool, scratch: seq<Byte>)
    requires o.code == EOF_CODE
    ensures Take(o, inFragment, scratch) == Done(None, o.state)
  {
  }

  // ---------------------------------------------------------------- one logical record

  /** The first fragment either does not survive, or completes the record, or leaves the reader at the
      start of the rest with one more part in `scratch`. */
  lemma FragmentStep(w: seq<Byte>, n: nat, s: State, p: nat, data: seq<Byte>, begin: bool, scratch: seq<Byte>)
    requires n <= |w| && At(w[..n], s, p) && Continues(w, p, data, begin) && (begin ==> scratch == [])
    ensures s.end <= n
    ensures var len := FragmentLength(p, data);
            var q := FragmentEnd(p, data);
            var r := ReadFrom(w[..n], s, !begin, scratch);
            var s1 := ReadPhysical(w[..n], s).state;
            && s1.drops == s.drops && s1.end <= n
            && (q > n ==> r == Record(None, s1))
            && (q <= n ==> At(w[..n], s1, q))
            && (q <= n && len == |data| ==> r == Record(Some(scratch + data[..len]), s1))
            && (q <= n && len < |data| ==> r == ReadFrom(w[..n], s1, true, scratch + data[..len]))
  {
    hide *;
    PhysicalStep(w, n, s, p, data, begin);
    var o := ReadPhysical(w[..n], s);
    ReadFromUnfold(w[..n], s, !begin, scratch);
    if FragmentEnd(p, data) > n {
      TakeEof(o, !begin, scratch);
    } else {
      TakeFragment(o, begin, FragmentLength(p, data) == |data|, scratch);
    }
  }

  lemma SplitAt(scratch: seq<Byte>, data: seq<Byte>, len: nat)
    requires len <= |data|
    ensures (scratch + data[..len]) + data[len..] == scratch + data
    ensures len == |data| ==> data[..len] == data
  {
  }

  /** From the start of a record, or from the start of its rest with the first part in `scratch`, the
      reader returns the record if all of it survived, and otherwise stops without a report. */
  lemma {:induction false} RecordStep(w: seq<Byte>, n: nat, s: State, p: nat, data: seq<Byte>, begin: bool, scratch: seq<Byte>)
    requires n <= |w| && At(w[..n], s, p) && Continues(w, p, data, begin) && (begin ==> scratch == [])
    ensures s.end <= n
    ensures var r := ReadFrom(w[..n], s, !begin, scratch);
            var q := p + |Emit(p, data, begin)|;
            && r.state.drops == s.drops
            && (q <= n ==> r.record == Some(scratch + data) && At(w[..n], r.state, q))
            && (q > n ==> r.record == None)
    decreases |data|, Rank(p)
  {
    hide *;
    FragmentStep(w, n, s, p, data, begin, scratch);
    ContinuesFragment(w, p, data, begin);
    var len, q := FragmentLength(p, data), FragmentEnd(p, data);
    FragmentInBlock(p, data, begin);
    SplitAt(scratch, data, len);
    if q <= n && len < |data| {
      Progress(p, data);
      RecordStep(w, n, ReadPhysical(w[..n], s).state, q, data[len..], false, scratch + data[..len]);
    }
  }

  // ---------------------------------------------------------------- the whole file

  /** How many records lie wholly within the first `n` bytes. */
  function Complete(records: seq<seq<Byte>>, n: nat): (k: nat)
    ensures k <= |records|
  {
    if records == [] || |FileOf(records)| <= n then |records| else Complete(records[..|records| - 1], n)
  }

  lemma {:induction false} FileOfPrefix(records: seq<seq<Byte>>, k: nat)
    requires k <= |records|
    ensures FileOf(records[..k]) <= FileOf(records)
    ensures k < |records| ==> Continues(FileOf(records), |FileOf(records[..k])|, records[k], true)
    ensures k < |records| ==> |FileOf(records[..k + 1])| == |FileOf(records[..k])| + |Emit(|FileOf(records[..k])|, records[k], true)|
    decreases |records| - k
  {
    hide Emit;
    if k == |records| {
      assert records[..k] == records;
    } else {
      FileOfPrefix(records, k + 1);
      var a, b, w := FileOf(records[..k]), FileOf(records[..k + 1]), FileOf(records);
      assert records[..k + 1][..k] == records[..k];
      var e := Emit(|a|, records[k], true);
      assert b == a + e;
      assert w[..|b|] == b;
      assert w[|a|..|a| + |e|] == b[|a|..];
    }
  }

  lemma {:induction false} CompleteIs(records: seq<seq<Byte>>, n: nat, k: nat)
    requires k <= |records| && |FileOf(records[..k])| <= n
    requires k < |records| ==> |FileOf(records[..k + 1])| > n
    ensures Complete(records, n) == k
    decreases |records|
  {
    hide *;
    CompleteUnfold(records, n);
    if k == |records| {
      assert records[..k] == records;
    } else {
      var front := records[..|records| - 1];
      FileOfPrefix(records, k + 1);
      assert front[..k] == records[..k];
      assert k < |front| ==> front[..k + 1] == records[..k + 1];
      CompleteIs(front, n, k);
    }
  }

  lemma CompleteUnfold(records: seq<seq<Byte>>, n: nat)
    ensures Complete(records, n) ==
            if records == [] || |FileOf(records)| <= n then |records| else Complete(records[..|records| - 1], n)
  {
    hide FileOf;
  }

  lemma {:induction false} ReadRest(records: seq<seq<Byte>>, n: nat, k: nat, s: State)
    requires n <= |FileOf(records)| && k <= |records| && |FileOf(records[..k])| <= n
    requires At(FileOf(records)[..n], s, |FileOf(records[..k])|)
    ensures s.end <= n
    ensures var (out, last) := ReadAll(FileOf(records)[..n], s);
            k <= Complete(records, n) && out == records[k..Complete(records, n)] && last.drops == s.drops
    decreases |records| - k
  {
    hide FileOf, Emit, At, Complete, ReadFrom;
    var w, p := FileOf(records), |FileOf(records[..k])|;
    var file := w[..n];
    assert s.end <= n by { AtWithin(file, s, p); }
    if k == |records| {
      assert records[..k] == records;
      NothingLeft(file, s);
      CompleteIs(records, n, k);
    } else {
      FileOfPrefix(records, k);
      RecordStep(w, n, s, p, records[k], true, []);
      var r := ReadFrom(file, s, false, []);
      if p + |Emit(p, records[k], true)| <= n {
        assert [] + records[k] == records[k];
        ReadRest(records, n, k + 1, r.state);
        var c := Complete(records, n);
        assert records[k..c] == [records[k]] + records[k + 1..c];
      } else {
        CompleteIs(records, n, k);
        assert records[k..k] == [];
      }
    }
  }

  lemma AtWithin(file: seq<Byte>, s: State, p: nat)
    requires At(file, s, p)
    ensures s.end <= |file|
  {
  }

  /** At the end of the file the reader stops without a report. */
  lemma NothingLeft(file: seq<Byte>, s: State)
    requires At(file, s, |file|)
    ensures s.end <= |file|
    ensures var r := ReadFrom(file, s, false, []); r.record == None && r.state.drops == s.drops
  {
    hide ParseRecord;
    if BeforeBlock(file, s, |file|) {
      LoadNext(file, s, |file|);
      var s1 := NextBlock(file, s);
      assert s1.eof && s1.buffer == [];
    }
  }

  /** Log round trip with a torn tail: from any prefix of a written file the reader returns exactly the
      records that lie wholly inside the prefix, in order, and reports no corruption. */
  lemma TornTail(records: seq<seq<Byte>>, n: nat)
    requires n <= |FileOf(records)|
    ensures var (out, last) := ReadAll(FileOf(records)[..n], START);
            out == records[..Complete(records, n)] && last.drops == []
  {
    assert FileOf(records[..0]) == [];
    assert At(FileOf(records)[..n], START, 0);
    hide FileOf, At, Complete, ReadAll;
    ReadRest(records, n, 0, START);
    assert records[0..Complete(records, n)] == records[..Complete(records, n)];
  }

  /** The untorn file gives back every record. */
  lemma RoundTrip(records: seq<seq<Byte>>)
    ensures ReadAll(FileOf(records), START).0 == records && ReadAll(FileOf(records), START).1.drops == []
  {
    var w := FileOf(records);
    TornTail(records, |w|);
    assert w[..|w|] == w;
    assert Complete(records, |w|) == |records| && records[..|records|] == records;
  }

  // ---------------------------------------------------------------- writing and reading objects

  lemma FileOfNext(records: seq<seq<Byte>>, i: nat)
    requires i < |records|
    ensures var a := FileOf(records[..i]); FileOf(records[..i + 1]) == a + Emit(|a|, records[i], true)
  {
    hide Emit;
    assert records[..i + 1][..i] == records[..i];
  }

  /** Writing records one by one produces `FileOf`, also when a second writer continues the file. */
  method WriteAll(records: seq<seq<Byte>>, split: nat) returns (file: seq<Byte>)
    requires split <= |records|
    ensures file == FileOf(records)
  {
    assert records[..0] == [] && FileOf([]) == [];
    assert records[..|records|] == records;
    hide *;
    var writer := new Writer([]);
    for i := 0 to |records|
      invariant fresh(writer) && writer.Valid() && writer.dest == FileOf(records[..i])
    {
      if i == split {
        writer := new Writer(writer.dest);
      }
      FileOfNext(records, i);
      writer.AddRecord(records[i]);
    }
    file := writer.dest;
  }

  /** Reading until the reader says stop. */
  method ReadBack(file: seq<Byte>) returns (out: seq<seq<Byte>>, drops: seq<nat>)
    ensures (out, drops) == (ReadAll(file, START).0, ReadAll(file, START).1.drops)
  {
    var reader := new Reader(file);
    out := [];
    ghost var goal := ReadAll(file, START);
    assert [] + goal.0 == goal.0;
    reader.InFile();
    hide *;
    var more := true;
    while more
      invariant fresh(reader) && reader.Valid() && reader.file == file && reader.Now().end <= |file|
      invariant more ==> goal == (out + ReadAll(file, reader.Now()).0, ReadAll(file, reader.Now()).1)
      invariant !more ==> goal == (out, reader.Now())
      decreases more, if more then Unread(file, reader.Now()) else 0
    {
      ghost var s := reader.Now();
      reader.InFile();
      var record := reader.ReadRecord();
      ReadAllUnfold(file, s);
      reader.InFile();
      if record.Some? {
        OneMore(out, record.value, ReadAll(file, reader.Now()).0);
        out := out + [record.value];
      } else {
        assert out + [] == out;
        more := false;
      }
    }
    drops := reader.drops;
    reader.InFile();
  }

  lemma OneMore(out: seq<seq<Byte>>, r: seq<Byte>, rest: seq<seq<Byte>>)
    ensures out + ([r] + rest) == (out + [r]) + rest
  {
  }

  lemma ReadAllUnfold(file: seq<Byte>, s: State)
    requires s.end <= |file|
    ensures var r := ReadFrom(file, s, false, []);
            && r.state.end <= |file|
            && (r.record.Some? ==> Unread(file, r.state) < Unread(file, s) &&
                                   ReadAll(file, s) == ([r.record.value] + ReadAll(file, r.state).0, ReadAll(file, r.state).1))
            && (r.record.None? ==> ReadAll(file, s) == ([], r.state))
  {
    hide ReadFrom;
  }
}
