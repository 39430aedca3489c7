/** Reading a log of which some bytes were changed: damaged records are dropped as a whole, the loss
    ends with the block, and nothing else is affected. */
module Damage {
  import opened Crc32c
  import opened CrcProof
  import FastCrc
  import opened LogFormat
  import opened LogReader
  import opened TornLog

  // ---------------------------------------------------------------- one physical record

  /** `bad` is the physical record `good` with either its checksum changed, or up to four consecutive
      bytes of type and payload. (A changed length makes the reader check other bytes.) */
  ghost predicate Hit(good: seq<Byte>, bad: seq<Byte>) {
    && |bad| == |good| >= HEADER_SIZE && bad[4] == good[4] && bad[5] == good[5]
    && ((bad[..4] != good[..4] && bad[6..] == good[6..]) || (bad[..4] == good[..4] && Burst(good[6..], bad[6..])))
  }

  ghost predicate Burst(good: seq<Byte>, bad: seq<Byte>) {
    exists before, x, y, after ::
      |x| == |y| <= 4 && x != y && good == before + x + after && bad == before + y + after
  }

  lemma BurstChecksum(good: seq<Byte>, bad: seq<Byte>)
    requires Burst(good, bad)
    ensures |good| == |bad| && Value(bad) != Value(good)
  {
    hide Value;
    var before, x, y, after :|
      |x| == |y| <= 4 && x != y && good == before + x + after && bad == before + y + after;
    BurstDetected(before, x, y, after);
  }

  /** One byte other than a length byte. */
  lemma OneByteHits(good: seq<Byte>, i: nat, b: Byte)
    requires HEADER_SIZE <= |good| && i < |good| && i != 4 && i != 5 && good[i] != b
    ensures Hit(good, good[i := b])
  {
    var bad := good[i := b];
    if i < 4 {
      assert bad[..4][i] == b;
    } else {
      var g, k := good[6..], i - 6;
      assert g == g[..k] + [g[k]] + g[k + 1..] && bad[6..] == g[..k] + [b] + g[k + 1..];
    }
  }

  lemma ChecksumStored(x: seq<Byte>, y: seq<Byte>)
    requires |x| == |y| == 4 && Unmask(DecodeFixed32(x)) == Unmask(DecodeFixed32(y))
    ensures x == y
  {
    hide *;
    MaskUnmask(DecodeFixed32(x));
    MaskUnmask(DecodeFixed32(y));
    WordOfIs(x);
    WordOfIs(y);
    WordOfInjective(x, y);
  }

  lemma WordOfIs(x: seq<Byte>)
    requires |x| == 4
    ensures WordOf(x) == DecodeFixed32(x)
  {
  }

  lemma BadChecksum(s: State, length: nat)
    requires |s.buffer| >= HEADER_SIZE + length && s.buffer[4] as nat + (s.buffer[5] as nat) * 256 == length
    requires Unmask(DecodeFixed32(s.buffer[..4])) != Value(s.buffer[6..HEADER_SIZE + length])
    ensures ParseRecord(s) == Outcome(BAD_RECORD, [], s.(buffer := [], drops := s.drops + Lost(s.buffer, length)))
  {
    hide Unmask, DecodeFixed32, Value;
  }

  /** What is reported: the rest of the block, except for what looks like preallocated space. */
  function Lost(buffer: seq<Byte>, length: nat): seq<nat>
    requires |buffer| >= HEADER_SIZE
  {
    if buffer[6] == ZERO_TYPE && length == 0 then [] else [|buffer|]
  }

  lemma GoodFields(good: seq<Byte>, t: Byte, data: seq<Byte>)
    requires |data| <= 0xffff && good == Physical(t, data)
    ensures |good| == HEADER_SIZE + |data| && good[4] as nat + (good[5] as nat) * 256 == |data|
    ensures Unmask(DecodeFixed32(good[..4])) == Value(good[6..])
  {
    assert HEADER_SIZE == 7;
    hide *;
    HeaderFields(t, data);
    assert good == Physical(t, data) + [];
    BufferParts(good, t, data, []);
    assert good[6..HEADER_SIZE + |data|] == good[6..];
  }

  lemma HitFields(good: seq<Byte>, bad: seq<Byte>, t: Byte, data: seq<Byte>)
    requires |data| <= 0xffff && good == Physical(t, data) && Hit(good, bad)
    ensures |bad| == HEADER_SIZE + |data| && bad[4] as nat + (bad[5] as nat) * 256 == |data|
    ensures Unmask(DecodeFixed32(bad[..4])) != Value(bad[6..])
  {
    assert HEADER_SIZE == 7;
    hide Physical, Unmask, DecodeFixed32, Value, Burst;
    GoodFields(good, t, data);
    if bad[..4] != good[..4] {
      if Unmask(DecodeFixed32(bad[..4])) == Unmask(DecodeFixed32(good[..4])) {
        ChecksumStored(bad[..4], good[..4]);
      }
    } else {
      BurstChecksum(good[6..], bad[6..]);
    }
  }

  /** A damaged physical record is never returned: it is dropped with the rest of its block. */
  lemma ParseHit(s: State, t: Byte, data: seq<Byte>, bad: seq<Byte>, rest: seq<Byte>)
    requires |data| <= 0xffff && Hit(Physical(t, data), bad) && s.buffer == bad + rest
    ensures |bad| == HEADER_SIZE + |data| >= HEADER_SIZE
    ensures ParseRecord(s) == Outcome(BAD_RECORD, [], s.(buffer := [], drops := s.drops + Lost(s.buffer, |data|)))
  {
    HitFields(Physical(t, data), bad, t, data);
    assert s.buffer[..4] == bad[..4] && s.buffer[6..HEADER_SIZE + |data|] == bad[6..];
    hide Hit, Physical, Unmask, DecodeFixed32, Value;
    BadChecksum(s, |data|);
  }

  /** A header as it stands in the file: masked checksum, length and type, least significant byte first. */
  lemma HeaderBytes()
    ensures Header(0xff, []) == [0xd8, 0xe8, 0x84, 0xa2] + [0, 0, 0xff]
  {
    hide *;
    FastCrc.FirstValues(0);
    NothingMore();
    MaskedWord();
    WordBytes();
    HeaderIs(0xff);
  }

  lemma HeaderIs(t: Byte)
    ensures Header(t, []) == EncodeFixed32(Mask(Extend(Value([t]), []))) + [0, 0, t]
  {
    hide EncodeFixed32, Mask, Extend, Value;
  }

  lemma NothingMore()
    ensures Extend(0xff00_0000, []) == 0xff00_0000
  {
  }

  lemma MaskedWord()
    ensures Mask(0xff00_0000) == 0xa284_e8d8
  {
    MaskIs(0xff00_0000, 0x1_fe00, 0);
  }

  lemma MaskIs(crc: Word, high: nat, low: nat)
    requires crc == high * 0x8000 + low && low < 0x8000
    ensures Mask(crc) == (high + low * 0x2_0000 + MASK_DELTA as int) % 0x1_0000_0000
  {
    assert crc / 0x8000 == high && crc % 0x8000 == low;
  }

  lemma WordBytes()
    ensures EncodeFixed32(0xa284_e8d8) == [0xd8, 0xe8, 0x84, 0xa2]
  {
  }

  // ---------------------------------------------------------------- what is returned is whole

  function Join(parts: seq<seq<Byte>>): seq<Byte> {
    if parts == [] then [] else parts[0] + Join(parts[1..])
  }

  /** From `s` on, successive physical records carry `parts` and are typed as one logical record, or as
      its rest if not `begin`. */
  ghost predicate Carries(file: seq<Byte>, s: State, parts: seq<seq<Byte>>, begin: bool)
    requires s.end <= |file|
    decreases |parts|
  {
    && parts != []
    && var o := ReadPhysical(file, s);
       && o.fragment == parts[0] && o.code == FragmentType(begin, |parts| == 1) as nat
       && (|parts| > 1 ==> Carries(file, o.state, parts[1..], false))
  }

  ghost predicate Whole(file: seq<Byte>, record: seq<Byte>) {
    exists s: State, parts :: s.end <= |file| && Carries(file, s, parts, true) && record == Join(parts)
  }

  ghost predicate Rest(file: seq<Byte>, s: State, scratch: seq<Byte>, record: seq<Byte>)
    requires s.end <= |file|
  {
    exists parts :: Carries(file, s, parts, false) && record == scratch + Join(parts)
  }

  /** `ReadRecord` returns nothing but the parts of a FULL, or of a FIRST, any number of MIDDLE and a
      LAST record that follow each other, whatever the file holds. */
  lemma {:induction false} ReturnedWhole(file: seq<Byte>, s: State, inFragment: bool, scratch: seq<Byte>)
    requires s.end <= |file|
    ensures var r := ReadFrom(file, s, inFragment, scratch).record;
            r.Some? ==> Whole(file, r.value) || (inFragment && Rest(file, s, scratch, r.value))
    decreases Unread(file, s)
  {
    hide *;
    ReadFromUnfold(file, s, inFragment, scratch);
    var o := ReadPhysical(file, s);
    var a := Take(o, inFragment, scratch);
    Progresses(file, s, inFragment, scratch);
    if a.More? {
      ReturnedWhole(file, a.state, a.inFragment, a.scratch);
      var r := ReadFrom(file, a.state, a.inFragment, a.scratch).record;
      if r.Some? && !Whole(file, r.value) {
        LongerRest(file, s, inFragment, scratch, r.value);
      }
    } else if a.record.Some? {
      LastPart(file, s, inFragment, scratch);
    }
  }

  lemma Progresses(file: seq<Byte>, s: State, inFragment: bool, scratch: seq<Byte>)
    requires s.end <= |file|
    ensures var a := Take(ReadPhysical(file, s), inFragment, scratch);
            a.More? ==> a.state.end <= |file| && Unread(file, a.state) < Unread(file, s)
  {
    hide ReadPhysical, Take;
  }

  /** Reports do not change what is read next. */
  lemma {:induction false} SameReads(file: seq<Byte>, s: State, s2: State)
    requires s.end <= |file| && s2 == s.(drops := s2.drops)
    ensures var o, o2 := ReadPhysical(file, s), ReadPhysical(file, s2);
            o2.code == o.code && o2.fragment == o.fragment && o2.state == o.state.(drops := o2.state.drops)
    decreases if s.eof then 0 else 1 + |file| - s.end
  {
    hide Unmask, DecodeFixed32, Value;
    if |s.buffer| < HEADER_SIZE && !s.eof {
      hide ParseRecord;
      SameReads(file, NextBlock(file, s), NextBlock(file, s2));
    }
  }

  lemma {:induction false} SameCarries(file: seq<Byte>, s: State, s2: State, parts: seq<seq<Byte>>, begin: bool)
    requires s.end <= |file| && s2 == s.(drops := s2.drops) && Carries(file, s, parts, begin)
    ensures Carries(file, s2, parts, begin)
    decreases |parts|
  {
    hide ReadPhysical;
    SameReads(file, s, s2);
    if |parts| > 1 {
      SameCarries(file, ReadPhysical(file, s).state, ReadPhysical(file, s2).state, parts[1..], false);
    }
  }

  lemma LastPart(file: seq<Byte>, s: State, inFragment: bool, scratch: seq<Byte>)
    requires s.end <= |file|
    requires var a := Take(ReadPhysical(file, s), inFragment, scratch); a.Done? && a.record.Some?
    ensures var r := Take(ReadPhysical(file, s), inFragment, scratch).record.value;
            Whole(file, r) || (inFragment && Rest(file, s, scratch, r))
  {
    hide ReadPhysical;
    var o := ReadPhysical(file, s);
    assert Join([o.fragment]) == o.fragment by { assert [o.fragment][1..] == [] && o.fragment + [] == o.fragment; }
    if o.code == FULL_TYPE as nat {
      assert Carries(file, s, [o.fragment], true);
    } else {
      assert Carries(file, s, [o.fragment], false);
    }
  }

  lemma TakeOn(o: Outcome, inFragment: bool, scratch: seq<Byte>)
    ensures var a := Take(o, inFragment, scratch);
            a.More? && a.inFragment ==>
              && a.state == o.state.(drops := a.state.drops)
              && (|| (o.code == FragmentType(true, false) as nat && a.scratch == o.fragment)
                  || (inFragment && o.code == FragmentType(false, false) as nat && a.scratch == scratch + o.fragment))
  {
  }

  lemma CarriesMore(file: seq<Byte>, s: State, parts: seq<seq<Byte>>, begin: bool)
    requires s.end <= |file| && ReadPhysical(file, s).code == FragmentType(begin, false) as nat
    requires Carries(file, ReadPhysical(file, s).state, parts, false)
    ensures var f := ReadPhysical(file, s).fragment;
            Carries(file, s, [f] + parts, begin) && Join([f] + parts) == f + Join(parts)
  {
    hide ReadPhysical, FragmentType;
    var f := ReadPhysical(file, s).fragment;
    assert parts != [];
    assert ([f] + parts)[1..] == parts;
  }

  /** One more part in front of a rest. */
  lemma LongerRest(file: seq<Byte>, s: State, inFragment: bool, scratch: seq<Byte>, record: seq<Byte>)
    requires s.end <= |file|
    requires var a := Take(ReadPhysical(file, s), inFragment, scratch);
             a.More? && a.inFragment && a.state.end <= |file| && Rest(file, a.state, a.scratch, record)
    ensures Whole(file, record) || (inFragment && Rest(file, s, scratch, record))
  {
    hide ReadPhysical, Take, Carries, Join, FragmentType;
    var o := ReadPhysical(file, s);
    var a := Take(o, inFragment, scratch);
    var parts :| Carries(file, a.state, parts, false) && record == a.scratch + Join(parts);
    TakeOn(o, inFragment, scratch);
    SameCarries(file, a.state, o.state, parts, false);
    var all := [o.fragment] + parts;
    if o.code == FragmentType(true, false) as nat && a.scratch == o.fragment {
      CarriesMore(file, s, parts, true);
      assert record == Join(all);
    } else {
      CarriesMore(file, s, parts, false);
      assert record == scratch + Join(all);
    }
  }

  /** Every payload byte that was read is returned, still held, or reported, except at the end of the
      file; a `BAD_RECORD` carries no bytes and was reported when it was parsed. */
  lemma TakeAccounts(o: Outcome, inFragment: bool, scratch: seq<Byte>)
    requires o.code != EOF_CODE && (!inFragment ==> scratch == []) && (o.code == BAD_RECORD ==> o.fragment == [])
    ensures var a := Take(o, inFragment, scratch);
            var drops := if a.Done? then a.final.drops else a.state.drops;
            var held := if a.Done? then (if a.record.Some? then |a.record.value| else 0) else |a.scratch|;
            && o.state.drops <= drops && (a.More? && !a.inFragment ==> a.scratch == [])
            && held + Total(drops[|o.state.drops|..]) == |scratch| + |o.fragment|
  {
    var a := Take(o, inFragment, scratch);
    var drops := if a.Done? then a.final.drops else a.state.drops;
    var more := drops[|o.state.drops|..];
    assert more == [] || more == [more[0]];
    assert more != [] ==> Total(more) == more[0] by { if more != [] { assert more[1..] == []; } }
  }

  function Total(drops: seq<nat>): nat {
    if drops == [] then 0 else drops[0] + Total(drops[1..])
  }

  // ---------------------------------------------------------------- one fragment of a file

  /** The physical record that starts at `a`, with type `t` and payload `part`, is a fragment of the
      logical record `data` (or its rest) written at `p`. */
  ghost predicate FragmentAt(p: nat, data: seq<Byte>, begin: bool, a: nat, t: Byte, part: seq<Byte>)
    decreases |data|, Rank(p)
  {
    var n := FragmentLength(p, data);
    || (a == p + Trailer(p) && t == FragmentType(begin, n == |data|) && part == data[..n])
    || (n < |data| && (Progress(p, data); FragmentAt(FragmentEnd(p, data), data[n..], false, a, t, part)))
  }

  lemma FragmentAtUnfold(p: nat, data: seq<Byte>, begin: bool, a: nat, t: Byte, part: seq<Byte>)
    requires FragmentAt(p, data, begin, a, t, part)
    ensures var n := FragmentLength(p, data);
            || (a == p + Trailer(p) && t == FragmentType(begin, n == |data|) && part == data[..n])
            || (n < |data| && FragmentAt(FragmentEnd(p, data), data[n..], false, a, t, part))
  {
    hide FragmentLength, FragmentEnd, FragmentType, Trailer;
  }

  /** A fragment lies within one block and within its record. */
  lemma {:induction false} FragmentWithin(p: nat, data: seq<Byte>, begin: bool, a: nat, t: Byte, part: seq<Byte>)
    requires FragmentAt(p, data, begin, a, t, part)
    ensures p + Trailer(p) <= a && |part| <= 0xffff && HEADER_SIZE + |part| <= Leftover(a)
    ensures a + HEADER_SIZE + |part| <= p + |Emit(p, data, begin)|
    decreases |data|, Rank(p)
  {
    hide *;
    FragmentAtUnfold(p, data, begin, a, t, part);
    FragmentInBlock(p, data, begin);
    EmitLength(p, data, begin);
    var n, q := FragmentLength(p, data), FragmentEnd(p, data);
    if n < |data| && FragmentAt(q, data[n..], false, a, t, part) {
      Progress(p, data);
      FragmentWithin(q, data[n..], false, a, t, part);
    }
  }

  lemma EmitLength(p: nat, data: seq<Byte>, begin: bool)
    ensures var n, q := FragmentLength(p, data), FragmentEnd(p, data);
            p + |Emit(p, data, begin)| == if n < |data| then q + |Emit(q, data[n..], false)| else q
  {
    hide Fragment, FragmentLength, FragmentEnd;
    EmitUnfold(p, data, begin);
  }

  /** The record format in its own numbers: blocks of 32768 bytes, headers of 7, the types FULL 1,
      FIRST 2, MIDDLE 3 and LAST 4; no fragment crosses a block, and one that is not the last of its
      record fills its block. */
  lemma {:induction false} FragmentLayout(p: nat, data: seq<Byte>, begin: bool, a: nat, t: Byte, part: seq<Byte>)
    requires FragmentAt(p, data, begin, a, t, part)
    ensures a % 32768 + 7 + |part| <= 32768 && 1 <= t <= 4
    ensures t == 1 || t == 2 <==> begin && a == p + Trailer(p)
    ensures t == 1 || t == 4 <==> a + 7 + |part| == p + |Emit(p, data, begin)|
    ensures t == 2 || t == 3 ==> (a + 7 + |part|) % 32768 == 0
    ensures Trailer(p) == if p % 32768 + 7 > 32768 then 32768 - p % 32768 else 0
    decreases |data|, Rank(p)
  {
    LayoutNumbers(p, a, begin, FragmentLength(p, data) == |data|);
    hide *;
    FragmentAtUnfold(p, data, begin, a, t, part);
    FragmentWithin(p, data, begin, a, t, part);
    FragmentInBlock(p, data, begin);
    EmitLength(p, data, begin);
    var n, q := FragmentLength(p, data), FragmentEnd(p, data);
    if n < |data| {
      Progress(p, data);
      if FragmentAt(q, data[n..], false, a, t, part) {
        Later(p, data, begin, a, t, part);
        FragmentLayout(q, data[n..], false, a, t, part);
      } else {
        LongerThanFragment(q, data[n..]);
      }
    }
  }

  /** What is skipped at the end of a block is filled with zeros. */
  lemma TrailerIsZero(p: nat, data: seq<Byte>, begin: bool, i: nat)
    requires i < Trailer(p)
    ensures i < |Emit(p, data, begin)| && Emit(p, data, begin)[i] == 0
  {
    hide Emit, Physical, FragmentLength, FragmentType;
    EmitUnfold(p, data, begin);
    assert i < |Fragment(p, data, begin)| && Fragment(p, data, begin)[i] == Zeros(Trailer(p))[i];
  }

  lemma LongerThanFragment(q: nat, data: seq<Byte>)
    ensures |Emit(q, data, false)| > 0
  {
    hide *;
    EmitLength(q, data, false);
    FragmentInBlock(q, data, false);
  }

  lemma LayoutNumbers(p: nat, a: nat, begin: bool, end: bool)
    ensures HEADER_SIZE == 7 && BLOCK_SIZE == 32768 && Leftover(a) == 32768 - a % 32768
    ensures Trailer(p) == if p % 32768 + 7 > 32768 then 32768 - p % 32768 else 0
    ensures FragmentType(begin, end) == if begin && end then 1 else if begin then 2 else if end then 4 else 3
  {
  }

  /** The fragment at `p` stands in the file. */
  ghost predicate Stands(w: seq<Byte>, p: nat, data: seq<Byte>, begin: bool) {
    var n, q := FragmentLength(p, data), FragmentEnd(p, data);
    q <= |w| && w[p + Trailer(p)..q] == Physical(FragmentType(begin, n == |data|), data[..n])
  }

  lemma ReadStanding(w: seq<Byte>, s: State, p: nat, data: seq<Byte>, begin: bool)
    requires At(w, s, p) && Stands(w, p, data, begin)
    ensures s.end <= |w|
    ensures var n := FragmentLength(p, data);
            var o := ReadPhysical(w, s);
            && o.code == FragmentType(begin, n == |data|) as nat && o.fragment == data[..n]
            && At(w, o.state, FragmentEnd(p, data)) && o.state.drops == s.drops && o.state.end <= |w|
  {
    hide *;
    assert w[..|w|] == w;
    AtWithin(w, s, p);
    StandsIs(w, p, data, begin);
    FragmentInBlock(p, data, begin);
    var n := FragmentLength(p, data);
    var s1 := PassTrailer(w, s, p);
    ReadLoaded(w, |w|, s1, p + Trailer(p), FragmentType(begin, n == |data|), data[..n]);
    AtWithin(w, ReadPhysical(w, s).state, FragmentEnd(p, data));
  }

  lemma StandsIs(w: seq<Byte>, p: nat, data: seq<Byte>, begin: bool)
    requires Stands(w, p, data, begin)
    ensures var n, q := FragmentLength(p, data), FragmentEnd(p, data);
            && q == p + Trailer(p) + HEADER_SIZE + n && q <= |w| && n <= |data| && n <= 0xffff
            && w[p + Trailer(p)..q] == Physical(FragmentType(begin, n == |data|), data[..n])
  {
    hide Physical, FragmentType, Trailer;
  }

  lemma ContinuesStands(w: seq<Byte>, p: nat, data: seq<Byte>, begin: bool)
    requires Continues(w, p, data, begin)
    ensures Stands(w, p, data, begin)
    ensures var n, q := FragmentLength(p, data), FragmentEnd(p, data);
            n < |data| ==> Continues(w, q, data[n..], false) && p + |Emit(p, data, begin)| == q + |Emit(q, data[n..], false)|
    ensures FragmentLength(p, data) == |data| ==> p + |Emit(p, data, begin)| == FragmentEnd(p, data)
  {
    ContinuesFragment(w, p, data, begin);
    hide Continues, Physical, FragmentType, Trailer, Emit;
  }

  // ---------------------------------------------------------------- the damaged fragment

  /** The end of the block that holds `a`, as far as the file goes. */
  function BlockStop(a: nat, size: nat): nat {
    if a + Leftover(a) <= size then a + Leftover(a) else size
  }

  lemma LoadedHit(w: seq<Byte>, s: State, a: nat, t: Byte, part: seq<Byte>)
    requires Loaded(w, s, a) && |part| <= 0xffff && HEADER_SIZE + |part| <= Leftover(a)
    requires a + HEADER_SIZE + |part| <= |w| && Hit(Physical(t, part), w[a..a + HEADER_SIZE + |part|])
    ensures s.end <= |w|
    ensures var o := ReadPhysical(w, s);
            var silent := w[a + 6] == ZERO_TYPE && part == [];
            && o.code == BAD_RECORD && o.fragment == [] && At(w, o.state, BlockStop(a, |w|))
            && o.state.drops == s.drops + (if silent then [] else [BlockStop(a, |w|) - a])
  {
    hide Hit, Physical, ParseRecord;
    var bad, rest := w[a..a + HEADER_SIZE + |part|], w[a + HEADER_SIZE + |part|..s.end];
    assert s.buffer == bad + rest;
    ParseHit(s, t, part, bad, rest);
    var o := ReadPhysical(w, s);
    assert o == ParseRecord(s);
    assert s.buffer[6] == w[a + 6];
    Stopped(w, s, a, o.state);
  }

  lemma Stopped(w: seq<Byte>, s: State, a: nat, s2: State)
    requires Loaded(w, s, a) && s2 == s.(buffer := [], drops := s2.drops)
    ensures At(w, s2, BlockStop(a, |w|)) && s.end == BlockStop(a, |w|)
  {
    if a + Leftover(a) <= |w| {
      BlockEnd(a);
      assert BeforeBlock(w, s2, a + Leftover(a));
    } else {
      assert Loaded(w, s2, |w|);
    }
  }

  /** What is left to read after the damaged fragment: the reader stands at the end of the block and
      has forgotten the record. */
  lemma ReadHit(w: seq<Byte>, s: State, p: nat, data: seq<Byte>, begin: bool, scratch: seq<Byte>) returns (s2: State)
    requires At(w, s, p) && (begin ==> scratch == [])
    requires var a, n := p + Trailer(p), FragmentLength(p, data);
             && FragmentEnd(p, data) <= |w|
             && Hit(Physical(FragmentType(begin, n == |data|), data[..n]), w[a..FragmentEnd(p, data)])
    ensures s.end <= |w| && s2.end <= |w| && At(w, s2, BlockStop(p + Trailer(p), |w|))
    ensures ReadFrom(w, s, !begin, scratch) == ReadFrom(w, s2, false, [])
    ensures var a := p + Trailer(p);
            !(w[a + 6] == ZERO_TYPE && FragmentLength(p, data) == 0) ==> BlockStop(a, |w|) - a in s2.drops
  {
    hide *;
    AtWithin(w, s, p);
    FragmentInBlock(p, data, begin);
    var a, n := p + Trailer(p), FragmentLength(p, data);
    var s1 := PassTrailer(w, s, p);
    LoadedHit(w, s1, a, FragmentType(begin, n == |data|), data[..n]);
    var o := ReadPhysical(w, s);
    ReadFromUnfold(w, s, !begin, scratch);
    TakeBad(o, !begin, scratch);
    s2 := Take(o, !begin, scratch).state;
    AtWithin(w, o.state, BlockStop(a, |w|));
    SameAt(w, o.state, s2, BlockStop(a, |w|));
    assert data[..n] == [] <==> n == 0;
  }

  lemma TakeBad(o: Outcome, inFragment: bool, scratch: seq<Byte>)
    requires o.code == BAD_RECORD && (!inFragment ==> scratch == [])
    ensures var a := Take(o, inFragment, scratch);
            && a.More? && !a.inFragment && a.scratch == [] && a.state == o.state.(drops := a.state.drops)
            && forall d :: d in o.state.drops ==> d in a.state.drops
  {
  }

  lemma SameAt(w: seq<Byte>, s: State, s2: State, p: nat)
    requires At(w, s, p) && s2 == s.(drops := s2.drops)
    ensures At(w, s2, p) && s2.end == s.end
  {
  }

  /** The fragments of a record up to the damaged one. */
  ghost predicate StandsBefore(w: seq<Byte>, p: nat, data: seq<Byte>, begin: bool, a: nat)
    decreases |data|, Rank(p)
  {
    var n, q := FragmentLength(p, data), FragmentEnd(p, data);
    p + Trailer(p) < a ==> Stands(w, p, data, begin) && (n < |data| ==> (Progress(p, data); StandsBefore(w, q, data[n..], false, a)))
  }

  lemma StandsBeforeUnfold(w: seq<Byte>, p: nat, data: seq<Byte>, begin: bool, a: nat)
    requires StandsBefore(w, p, data, begin, a) && p + Trailer(p) < a
    ensures Stands(w, p, data, begin)
    ensures FragmentLength(p, data) < |data| ==> StandsBefore(w, FragmentEnd(p, data), data[FragmentLength(p, data)..], false, a)
  {
    hide Stands, FragmentLength, FragmentEnd, Trailer;
  }

  /** An intact fragment that is not the last one joins what is held. */
  lemma PassFragment(w: seq<Byte>, s: State, p: nat, data: seq<Byte>, begin: bool, scratch: seq<Byte>) returns (s1: State)
    requires At(w, s, p) && (begin ==> scratch == []) && Stands(w, p, data, begin) && FragmentLength(p, data) < |data|
    ensures s.end <= |w| && s1.end <= |w| && At(w, s1, FragmentEnd(p, data))
    ensures ReadFrom(w, s, !begin, scratch) == ReadFrom(w, s1, true, scratch + data[..FragmentLength(p, data)])
  {
    hide *;
    ReadStanding(w, s, p, data, begin);
    s1 := ReadPhysical(w, s).state;
    ReadFromUnfold(w, s, !begin, scratch);
    TakeFragment(ReadPhysical(w, s), begin, false, scratch);
  }

  ghost predicate HitAt(w: seq<Byte>, a: nat, t: Byte, part: seq<Byte>) {
    |part| <= 0xffff && a + HEADER_SIZE + |part| <= |w| && Hit(Physical(t, part), w[a..a + HEADER_SIZE + |part|])
  }

  /** What the reader reports about a damaged fragment, unless it looks like preallocated space. */
  ghost predicate Reported(w: seq<Byte>, a: nat, part: seq<Byte>, drops: seq<nat>)
    requires a + HEADER_SIZE <= |w|
  {
    (w[a + 6] == ZERO_TYPE && part == []) || BlockStop(a, |w|) - a in drops
  }

  lemma ReadHitAt(w: seq<Byte>, s: State, p: nat, data: seq<Byte>, begin: bool, scratch: seq<Byte>, a: nat, t: Byte, part: seq<Byte>)
    returns (s2: State)
    requires At(w, s, p) && (begin ==> scratch == []) && HitAt(w, a, t, part)
    requires var n := FragmentLength(p, data); a == p + Trailer(p) && t == FragmentType(begin, n == |data|) && part == data[..n]
    ensures s.end <= |w| && s2.end <= |w| && At(w, s2, BlockStop(a, |w|)) && a + HEADER_SIZE <= |w| && Reported(w, a, part, s2.drops)
    ensures ReadFrom(w, s, !begin, scratch) == ReadFrom(w, s2, false, [])
  {
    FragmentInBlock(p, data, begin);
    hide At, Hit, Physical, FragmentType, Trailer, ReadFrom;
    s2 := ReadHit(w, s, p, data, begin, scratch);
  }

  lemma {:induction false} ReadToHit(w: seq<Byte>, s: State, p: nat, data: seq<Byte>, begin: bool, scratch: seq<Byte>,
                                     a: nat, t: Byte, part: seq<Byte>) returns (s2: State)
    requires At(w, s, p) && (begin ==> scratch == []) && FragmentAt(p, data, begin, a, t, part) && StandsBefore(w, p, data, begin, a)
    requires HitAt(w, a, t, part)
    ensures s.end <= |w| && s2.end <= |w| && At(w, s2, BlockStop(a, |w|)) && a + HEADER_SIZE <= |w| && Reported(w, a, part, s2.drops)
    ensures ReadFrom(w, s, !begin, scratch) == ReadFrom(w, s2, false, [])
    decreases |data|, Rank(p)
  {
    hide *;
    AtWithin(w, s, p);
    FragmentAtUnfold(p, data, begin, a, t, part);
    var n, q := FragmentLength(p, data), FragmentEnd(p, data);
    if a == p + Trailer(p) && t == FragmentType(begin, n == |data|) && part == data[..n] {
      s2 := ReadHitAt(w, s, p, data, begin, scratch, a, t, part);
    } else {
      Later(p, data, begin, a, t, part);
      StandsBeforeUnfold(w, p, data, begin, a);
      var s1 := PassFragment(w, s, p, data, begin, scratch);
      s2 := ReadToHit(w, s1, q, data[n..], false, scratch + data[..n], a, t, part);
    }
  }

  lemma Later(p: nat, data: seq<Byte>, begin: bool, a: nat, t: Byte, part: seq<Byte>)
    requires var n := FragmentLength(p, data); n < |data| && FragmentAt(FragmentEnd(p, data), data[n..], false, a, t, part)
    ensures p + Trailer(p) < a && (FragmentLength(p, data) == 0 ==> Rank(FragmentEnd(p, data)) < Rank(p))
  {
    assert HEADER_SIZE == 7;
    hide *;
    FragmentInBlock(p, data, begin);
    Progress(p, data);
    FragmentWithin(FragmentEnd(p, data), data[FragmentLength(p, data)..], false, a, t, part);
  }

  // ---------------------------------------------------------------- finding the next record

  /** Reading on in the middle of a record: its remaining fragments are reported and passed over. */
  lemma {:induction false} SkipRest(w: seq<Byte>, s: State, p: nat, data: seq<Byte>) returns (s2: State)
    requires At(w, s, p) && Continues(w, p, data, false)
    ensures s.end <= |w| && s2.end <= |w| && At(w, s2, p + |Emit(p, data, false)|) && s.drops <= s2.drops
    ensures ReadFrom(w, s, false, []) == ReadFrom(w, s2, false, [])
    decreases |data|, Rank(p)
  {
    hide *;
    AtWithin(w, s, p);
    ContinuesStands(w, p, data, false);
    ReadStanding(w, s, p, data, false);
    var o := ReadPhysical(w, s);
    ReadFromUnfold(w, s, false, []);
    var n, q := FragmentLength(p, data), FragmentEnd(p, data);
    FragmentInBlock(p, data, false);
    TakeLoose(o, n == |data|);
    s2 := Take(o, false, []).state;
    SameAt(w, o.state, s2, q);
    if n < |data| {
      Progress(p, data);
      s2 := SkipRest(w, s2, q, data[n..]);
    }
  }

  lemma TakeLoose(o: Outcome, end: bool)
    requires o.code == FragmentType(false, end) as nat
    ensures var a := Take(o, false, []);
            && a.More? && !a.inFragment && a.scratch == [] && a.state == o.state.(drops := a.state.drops)
            && o.state.drops <= a.state.drops
  {
  }

  /** The rest of a record from a block boundary inside it on. */
  lemma {:induction false} RestFrom(w: seq<Byte>, p: nat, data: seq<Byte>, begin: bool, stop: nat) returns (rest: seq<Byte>)
    requires Continues(w, p, data, begin) && stop % BLOCK_SIZE == 0 && p + Trailer(p) < stop < p + |Emit(p, data, begin)|
    ensures Continues(w, stop, rest, false) && stop + |Emit(stop, rest, false)| == p + |Emit(p, data, begin)|
    decreases |data|, Rank(p)
  {
    hide *;
    ContinuesStands(w, p, data, begin);
    FragmentInBlock(p, data, begin);
    var n, q := FragmentLength(p, data), FragmentEnd(p, data);
    NotBeyond(p + Trailer(p), q, stop);
    rest := data[n..];
    if n < |data| && q < stop {
      Progress(p, data);
      NoTrailer(q);
      rest := RestFrom(w, q, data[n..], false, stop);
    }
  }

  /** A fragment ends at or before the next block boundary. */
  lemma NotBeyond(a: nat, q: nat, stop: nat)
    requires a < stop && stop % BLOCK_SIZE == 0 && q <= a + Leftover(a)
    ensures q <= stop
  {
    BlockEnd(a);
    NextMultiple(a / BLOCK_SIZE, stop / BLOCK_SIZE, a, stop);
  }

  lemma NextMultiple(m: nat, k: nat, a: nat, stop: nat)
    requires m * BLOCK_SIZE <= a < stop == k * BLOCK_SIZE
    ensures (m + 1) * BLOCK_SIZE <= stop
  {
  }

  lemma NoTrailer(q: nat)
    requires q % BLOCK_SIZE == 0
    ensures Trailer(q) == 0
  {
  }

  // ---------------------------------------------------------------- records of a file

  /** Where record `i` was started. */
  ghost function Start(records: seq<seq<Byte>>, i: nat): nat
    requires i <= |records|
  {
    |FileOf(records[..i])|
  }

  /** The first header of record `i`. */
  ghost function FirstHeader(records: seq<seq<Byte>>, i: nat): nat
    requires i <= |records|
  {
    Start(records, i) + Trailer(Start(records, i))
  }

  lemma RecordAt(records: seq<seq<Byte>>, i: nat)
    requires i < |records|
    ensures Continues(FileOf(records), Start(records, i), records[i], true)
    ensures Start(records, i) + |Emit(Start(records, i), records[i], true)| == Start(records, i + 1)
    ensures FirstHeader(records, i) < Start(records, i + 1) <= |FileOf(records)|
  {
    assert HEADER_SIZE == 7;
    hide FileOf, Emit, Continues, Trailer;
    FileOfPrefix(records, i);
    FileOfPrefix(records, i + 1);
    ContinuesStands(FileOf(records), Start(records, i), records[i], true);
    EmitLength(Start(records, i), records[i], true);
    FragmentInBlock(Start(records, i), records[i], true);
    var e := Emit(Start(records, i), records[i], true);
    assert |e| >= FragmentEnd(Start(records, i), records[i]) - Start(records, i);
  }

  lemma {:induction false} StartsGrow(records: seq<seq<Byte>>, i: nat, j: nat)
    requires i <= j <= |records|
    ensures Start(records, i) <= Start(records, j) <= |FileOf(records)|
    ensures Start(records, |records|) == |FileOf(records)| && Start(records, 0) == 0
    decreases j - i
  {
    hide *;
    StartEnds(records);
    if i < j {
      RecordAt(records, j - 1);
      HeaderAfterStart(records, j - 1);
      StartsGrow(records, i, j - 1);
    } else {
      StartInside(records, i);
    }
  }

  lemma StartEnds(records: seq<seq<Byte>>)
    ensures Start(records, |records|) == |FileOf(records)| && Start(records, 0) == 0
  {
    assert records[..|records|] == records && FileOf(records[..0]) == [];
    hide FileOf;
  }

  lemma HeaderAfterStart(records: seq<seq<Byte>>, i: nat)
    requires i <= |records|
    ensures Start(records, i) <= FirstHeader(records, i)
    ensures FirstHeader(records, i) == Start(records, i) + Trailer(Start(records, i))
  {
  }

  lemma StartInside(records: seq<seq<Byte>>, i: nat)
    requires i <= |records|
    ensures Start(records, i) <= |FileOf(records)|
  {
    hide FileOf;
    FileOfPrefix(records, i);
  }

  /** The record that holds a position of the file. */
  lemma {:induction false} Locate(records: seq<seq<Byte>>, j: nat, n: nat) returns (i: nat)
    requires n <= |records| && j < Start(records, n)
    ensures i < n && Start(records, i) <= j < Start(records, i + 1)
    decreases n
  {
    hide *;
    StartEnds(records);
    if Start(records, n - 1) <= j {
      i := n - 1;
    } else {
      i := Locate(records, j, n - 1);
    }
  }

  lemma SameContinues(w: seq<Byte>, w2: seq<Byte>, p: nat, data: seq<Byte>, begin: bool, from: nat, to: nat)
    requires Continues(w, p, data, begin) && |w2| == |w| && from <= p && p + |Emit(p, data, begin)| <= to <= |w|
    requires w2[from..to] == w[from..to]
    ensures Continues(w2, p, data, begin)
  {
    hide Emit;
    var q := p + |Emit(p, data, begin)|;
    SubSlice(w, from, to, p, q);
    SubSlice(w2, from, to, p, q);
  }

  lemma SubSlice(w: seq<Byte>, from: nat, to: nat, p: nat, q: nat)
    requires from <= p <= q <= to <= |w|
    ensures w[p..q] == w[from..to][p - from..q - from]
  {
    var x, y := p - from, q - from;
    var a, b := w[p..q], w[from..to][x..y];
    assert |a| == |b| && forall i :: 0 <= i < |a| ==> a[i] == w[p + i] && b[i] == w[from..to][x + i];
  }

  /** `w2` is the file `w` with the bytes from `a` to `b` replaced. */
  ghost predicate Patched(w: seq<Byte>, w2: seq<Byte>, a: nat, b: nat) {
    a <= b <= |w| == |w2| && w2[..a] == w[..a] && w2[b..] == w[b..]
  }

  lemma PatchedSlices(w: seq<Byte>, w2: seq<Byte>, a: nat, b: nat)
    requires Patched(w, w2, a, b)
    ensures a <= b <= |w| == |w2| && w2[0..a] == w[0..a] && w2[b..|w|] == w[b..|w|]
  {
    assert w2[0..a] == w2[..a] && w[0..a] == w[..a] && w2[b..|w|] == w2[b..] && w[b..|w|] == w[b..];
  }

  lemma OtherRecords(records: seq<seq<Byte>>, w2: seq<Byte>, a: nat, b: nat, i: nat)
    requires Patched(FileOf(records), w2, a, b) && i < |records| && (Start(records, i + 1) <= a || b <= Start(records, i))
    ensures Continues(w2, Start(records, i), records[i], true)
  {
    hide *;
    var w := FileOf(records);
    RecordAt(records, i);
    PatchedSlices(w, w2, a, b);
    if Start(records, i + 1) <= a {
      SameContinues(w, w2, Start(records, i), records[i], true, 0, a);
    } else {
      SameContinues(w, w2, Start(records, i), records[i], true, b, |w|);
    }
  }

  lemma {:induction false} FragmentsBefore(w: seq<Byte>, w2: seq<Byte>, p: nat, data: seq<Byte>, begin: bool, a: nat, t: Byte, part: seq<Byte>)
    requires Continues(w, p, data, begin) && |w2| == |w| && a <= |w| && w2[..a] == w[..a]
    requires FragmentAt(p, data, begin, a, t, part)
    ensures StandsBefore(w2, p, data, begin, a)
    decreases |data|, Rank(p)
  {
    hide *;
    var n, q := FragmentLength(p, data), FragmentEnd(p, data);
    if p + Trailer(p) < a {
      FragmentAtUnfold(p, data, begin, a, t, part);
      Later(p, data, begin, a, t, part);
      ContinuesStands(w, p, data, begin);
      FragmentWithin(q, data[n..], false, a, t, part);
      StandsIs(w, p, data, begin);
      SliceBefore(w, w2, p + Trailer(p), q, a);
      FragmentsBefore(w, w2, q, data[n..], false, a, t, part);
      StandsIntro(w2, p, data, begin, a);
    } else {
      StandsTrivially(w2, p, data, begin, a);
    }
  }

  lemma SliceBefore(w: seq<Byte>, w2: seq<Byte>, x: nat, y: nat, a: nat)
    requires x <= y <= a <= |w| && a <= |w2| && w2[..a] == w[..a]
    ensures w2[x..y] == w[x..y]
  {
    assert w2[x..y] == w2[..a][x..y] && w[x..y] == w[..a][x..y];
  }

  lemma StandsIntro(w: seq<Byte>, p: nat, data: seq<Byte>, begin: bool, a: nat)
    requires var n, q := FragmentLength(p, data), FragmentEnd(p, data);
             && p + Trailer(p) <= q <= |w| && n < |data| && w[p + Trailer(p)..q] == Physical(FragmentType(begin, n == |data|), data[..n])
             && StandsBefore(w, q, data[n..], false, a)
    ensures StandsBefore(w, p, data, begin, a)
  {
    hide Physical, FragmentType, FragmentLength, FragmentEnd, Trailer;
  }

  lemma StandsTrivially(w: seq<Byte>, p: nat, data: seq<Byte>, begin: bool, a: nat)
    requires p + Trailer(p) >= a
    ensures StandsBefore(w, p, data, begin, a)
  {
    hide FragmentLength, FragmentEnd, Trailer, Stands;
  }

  // ---------------------------------------------------------------- reading whole files

  /** Intact records are read one after the other. */
  lemma {:induction false} ReadIntact(w: seq<Byte>, records: seq<seq<Byte>>, i: nat, j: nat, s: State) returns (s2: State)
    requires i <= j <= |records| && At(w, s, Start(records, i))
    requires forall r: nat :: i <= r < j ==> Continues(w, Start(records, r), records[r], true)
    ensures s.end <= |w| && s2.end <= |w| && At(w, s2, Start(records, j)) && s2.drops == s.drops
    ensures ReadAll(w, s) == (records[i..j] + ReadAll(w, s2).0, ReadAll(w, s2).1)
    decreases j - i
  {
    hide *;
    AtWithin(w, s, Start(records, i));
    if i == j {
      s2 := s;
      assert records[i..j] == [] && [] + ReadAll(w, s).0 == ReadAll(w, s).0;
    } else {
      var s1 := ReadOne(w, records, i, s, Start(records, i));
      s2 := ReadIntact(w, records, i + 1, j, s1);
      OneMore([], records[i], records[i + 1..j]);
      assert records[i..j] == [records[i]] + records[i + 1..j];
      assert ([records[i]] + records[i + 1..j]) + ReadAll(w, s2).0 == [records[i]] + (records[i + 1..j] + ReadAll(w, s2).0);
    }
  }

  /** One record, from its start or from its first header. */
  lemma ReadOne(w: seq<Byte>, records: seq<seq<Byte>>, i: nat, s: State, p: nat) returns (s1: State)
    requires i < |records| && (p == Start(records, i) || p == FirstHeader(records, i)) && At(w, s, p)
    requires Continues(w, Start(records, i), records[i], true)
    ensures s.end <= |w| && s1.end <= |w| && At(w, s1, Start(records, i + 1)) && s1.drops == s.drops
    ensures ReadAll(w, s) == ([records[i]] + ReadAll(w, s1).0, ReadAll(w, s1).1)
  {
    hide *;
    assert w[..|w|] == w;
    AtWithin(w, s, p);
    RecordAt(records, i);
    HeaderAfterStart(records, i);
    FromHeader(w, Start(records, i), records[i]);
    ContinuesWithin(w, p, records[i]);
    RecordStep(w, |w|, s, p, records[i], true, []);
    var r := ReadFrom(w, s, false, []);
    assert [] + records[i] == records[i];
    s1 := r.state;
    ReadAllUnfold(w, s);
  }

  lemma ContinuesWithin(w: seq<Byte>, p: nat, data: seq<Byte>)
    requires Continues(w, p, data, true)
    ensures p + |Emit(p, data, true)| <= |w|
  {
    hide Emit;
  }

  /** A record may as well be read from its first header on, after the trailer. */
  lemma FromHeader(w: seq<Byte>, p: nat, data: seq<Byte>)
    requires Continues(w, p, data, true)
    ensures var a := p + Trailer(p); Continues(w, a, data, true) && a + |Emit(a, data, true)| == p + |Emit(p, data, true)|
  {
    hide Emit;
    var a := p + Trailer(p);
    TrailerFirst(p, data);
    var e := Emit(p, data, true);
    assert e[Trailer(p)..] == Emit(a, data, true);
    assert w[p..p + |e|][Trailer(p)..] == w[a..p + |e|];
  }

  lemma TrailerFirst(p: nat, data: seq<Byte>)
    ensures Emit(p, data, true) == Zeros(Trailer(p)) + Emit(p + Trailer(p), data, true)
  {
    hide *;
    var a, n, q := p + Trailer(p), FragmentLength(p, data), FragmentEnd(p, data);
    AfterItsTrailer(p, data);
    EmitUnfold(p, data, true);
    EmitUnfold(a, data, true);
    FragmentInBlock(p, data, true);
    if n < |data| {
      Concat3(Zeros(Trailer(p)), Fragment(a, data, true), Emit(q, data[n..], false));
    }
  }

  lemma AfterItsTrailer(p: nat, data: seq<Byte>)
    ensures var a := p + Trailer(p);
            && FragmentLength(a, data) == FragmentLength(p, data) && FragmentEnd(a, data) == FragmentEnd(p, data)
            && Fragment(p, data, true) == Zeros(Trailer(p)) + Fragment(a, data, true)
  {
    var a := p + Trailer(p);
    assert Trailer(a) == 0 by { AfterTrailer(p); }
    hide Physical, FragmentType;
    assert Zeros(0) == [];
  }

  /** After the damaged block: the first record whose header lies beyond it. */
  lemma Resume(records: seq<seq<Byte>>, w2: seq<Byte>, k: nat, a: nat, b: nat, s: State) returns (m: nat, p: nat, s2: State)
    requires Patched(FileOf(records), w2, a, b) && k < |records| && FirstHeader(records, k) <= a < b <= a + Leftover(a)
    requires At(w2, s, BlockStop(a, |w2|))
    ensures s.end <= |w2| && s2.end <= |w2| && k < m <= |records| && (forall d :: d in s.drops ==> d in s2.drops)
    ensures At(w2, s2, p) && (p == Start(records, m) || (m < |records| && p == FirstHeader(records, m)))
    ensures FirstHeader(records, m - 1) < a + Leftover(a) && (m < |records| ==> a + Leftover(a) <= FirstHeader(records, m))
    ensures ReadFrom(w2, s, false, []) == ReadFrom(w2, s2, false, [])
  {
    hide *;
    var stop := BlockStop(a, |w2|);
    StopIs(a, |w2|);
    PatchedIs(FileOf(records), w2, a, b);
    AtWithin(w2, s, stop);
    StartsGrow(records, k, |records|);
    s2 := s;
    if stop == |w2| {
      m, p := |records|, |w2|;
      RecordAt(records, m - 1);
    } else {
      var i := Locate(records, stop, |records|);
      HeaderAfterStart(records, i);
      HeaderAfterStart(records, k);
      Beyond(records, k, i, stop);
      if FirstHeader(records, i) >= stop {
        NextHeader(Start(records, i), stop);
        m, p := i, stop;
        RecordAt(records, m - 1);
      } else {
        RecordAt(records, i);
        var rest := RestFrom(FileOf(records), Start(records, i), records[i], true, stop);
        RestStands(records, w2, a, b, i, stop, rest);
        s2 := SkipRest(w2, s, stop, rest);
        m, p := i + 1, Start(records, i + 1);
        HeaderAfterStart(records, i + 1);
      }
    }
  }

  lemma StopIs(a: nat, size: nat)
    ensures BlockStop(a, size) == if a + Leftover(a) <= size then a + Leftover(a) else size
    ensures (a + Leftover(a)) % BLOCK_SIZE == 0 && Leftover(a) > 0
  {
    BlockEnd(a);
  }

  lemma PatchedIs(w: seq<Byte>, w2: seq<Byte>, a: nat, b: nat)
    requires Patched(w, w2, a, b)
    ensures a <= b <= |w| == |w2|
  {
  }

  /** The record found at the end of the block is a later one, or the damaged one itself. */
  lemma Beyond(records: seq<seq<Byte>>, k: nat, i: nat, stop: nat)
    requires k < |records| && i < |records| && FirstHeader(records, k) < stop < Start(records, i + 1)
    ensures k <= i && (stop <= FirstHeader(records, i) ==> k < i)
  {
    hide *;
    if i < k {
      StartsGrow(records, i + 1, k);
      HeaderAfterStart(records, k);
    }
  }

  lemma NextHeader(p: nat, stop: nat)
    requires stop % BLOCK_SIZE == 0 && p <= stop <= p + Trailer(p)
    ensures stop == p + Trailer(p)
  {
    if p < stop {
      NotBeyond(p, p + Trailer(p), stop);
    }
  }

  lemma RestStands(records: seq<seq<Byte>>, w2: seq<Byte>, a: nat, b: nat, i: nat, stop: nat, rest: seq<Byte>)
    requires Patched(FileOf(records), w2, a, b) && b <= stop && i < |records|
    requires Continues(FileOf(records), stop, rest, false) && stop + |Emit(stop, rest, false)| == Start(records, i + 1)
    ensures Continues(w2, stop, rest, false)
  {
    hide *;
    var w := FileOf(records);
    StartsGrow(records, i + 1, |records|);
    PatchedSlices(w, w2, a, b);
    SameContinues(w, w2, stop, rest, false, b, |w|);
  }

  lemma HitPlace(records: seq<seq<Byte>>, k: nat, a: nat, t: Byte, part: seq<Byte>)
    requires k < |records| && FragmentAt(Start(records, k), records[k], true, a, t, part)
    ensures var b := a + HEADER_SIZE + |part|;
            Start(records, k) <= FirstHeader(records, k) <= a < b <= a + Leftover(a) && b <= Start(records, k + 1)
  {
    assert HEADER_SIZE == 7;
    hide *;
    RecordAt(records, k);
    HeaderAfterStart(records, k);
    FragmentWithin(Start(records, k), records[k], true, a, t, part);
  }

  /** The records before the damage. */
  lemma ReadBefore(records: seq<seq<Byte>>, w2: seq<Byte>, k: nat, a: nat, b: nat) returns (s: State)
    requires Patched(FileOf(records), w2, a, b) && k <= |records| && Start(records, k) <= a
    ensures START.end <= |w2| && s.end <= |w2| && At(w2, s, Start(records, k))
    ensures ReadAll(w2, START) == (records[..k] + ReadAll(w2, s).0, ReadAll(w2, s).1)
  {
    hide *;
    StartEnds(records);
    AtStart(w2);
    forall r: nat | r < k ensures Continues(w2, Start(records, r), records[r], true) {
      StartsGrow(records, r + 1, k);
      OtherRecords(records, w2, a, b, r);
    }
    s := ReadIntact(w2, records, 0, k, START);
    assert records[0..k] == records[..k];
  }

  /** The record with the damaged fragment. */
  lemma ReadDamaged(records: seq<seq<Byte>>, w2: seq<Byte>, k: nat, a: nat, b: nat, t: Byte, part: seq<Byte>, s: State) returns (s1: State)
    requires k < |records| && FragmentAt(Start(records, k), records[k], true, a, t, part)
    requires HitAt(w2, a, t, part) && Patched(FileOf(records), w2, a, b) && At(w2, s, Start(records, k))
    ensures s.end <= |w2| && s1.end <= |w2| && At(w2, s1, BlockStop(a, |w2|)) && ReadAll(w2, s) == ReadAll(w2, s1)
    ensures a + HEADER_SIZE <= |w2| && Reported(w2, a, part, s1.drops)
  {
    hide *;
    RecordAt(records, k);
    PatchedBefore(FileOf(records), w2, a, b);
    FragmentsBefore(FileOf(records), w2, Start(records, k), records[k], true, a, t, part);
    s1 := ReadToHit(w2, s, Start(records, k), records[k], true, [], a, t, part);
    SameReadAll(w2, s, s1);
  }

  /** One fragment of record `k` was damaged. The records before `k` and those whose first header lies
      beyond the block of the damage are returned, in order; the others are lost as a whole, and the
      reader reports the loss. */
  lemma DamageContained(records: seq<seq<Byte>>, k: nat, a: nat, t: Byte, part: seq<Byte>, w2: seq<Byte>) returns (m: nat)
    requires k < |records| && FragmentAt(Start(records, k), records[k], true, a, t, part)
    requires HitAt(w2, a, t, part) && Patched(FileOf(records), w2, a, a + HEADER_SIZE + |part|)
    ensures k < m <= |records| && ReadAll(w2, START).0 == records[..k] + records[m..]
    ensures FirstHeader(records, m - 1) < a + Leftover(a) && (m < |records| ==> a + Leftover(a) <= FirstHeader(records, m))
    ensures a + HEADER_SIZE <= |w2| && Reported(w2, a, part, ReadAll(w2, START).1.drops)
  {
    hide *;
    var b := a + HEADER_SIZE + |part|;
    HitPlace(records, k, a, t, part);
    var s := ReadBefore(records, w2, k, a, b);
    var s1 := ReadDamaged(records, w2, k, a, b, t, part, s);
    m := ReadAfter(records, w2, k, a, b, s1);
    ReportedStays(w2, a, part, s1.drops, ReadAll(w2, s1).1.drops);
  }

  /** In particular, for any one byte of a fragment other than its two length bytes. */
  lemma OneByteContained(records: seq<seq<Byte>>, k: nat, a: nat, t: Byte, part: seq<Byte>, i: nat, b: Byte) returns (m: nat)
    requires k < |records| && FragmentAt(Start(records, k), records[k], true, a, t, part)
    requires i < 7 + |part| && i != 4 && i != 5 && a + i < |FileOf(records)| && FileOf(records)[a + i] != b
    ensures k < m <= |records| && ReadAll(FileOf(records)[a + i := b], START).0 == records[..k] + records[m..]
    ensures FirstHeader(records, m - 1) < a + Leftover(a) && (m < |records| ==> a + Leftover(a) <= FirstHeader(records, m))
  {
    hide *;
    var w := FileOf(records);
    RecordAt(records, k);
    FragmentBytes(w, Start(records, k), records[k], true, a, t, part);
    OneByteAt(w, a, t, part, i, b);
    m := DamageContained(records, k, a, t, part, w[a + i := b]);
  }

  lemma OneByteAt(w: seq<Byte>, a: nat, t: Byte, part: seq<Byte>, i: nat, b: Byte)
    requires |part| <= 0xffff && i < 7 + |part| && i != 4 && i != 5 && a + HEADER_SIZE + |part| <= |w|
    requires w[a..a + HEADER_SIZE + |part|] == Physical(t, part) && w[a + i] != b
    ensures HitAt(w[a + i := b], a, t, part) && Patched(w, w[a + i := b], a, a + HEADER_SIZE + |part|)
  {
    var good := w[a..a + HEADER_SIZE + |part|];
    assert good[i] == w[a + i];
    assert w[a + i := b][a..a + HEADER_SIZE + |part|] == good[i := b];
    hide Hit, Physical;
    OneByteHits(good, i, b);
  }

  lemma {:induction false} FragmentBytes(w: seq<Byte>, p: nat, data: seq<Byte>, begin: bool, a: nat, t: Byte, part: seq<Byte>)
    requires Continues(w, p, data, begin) && FragmentAt(p, data, begin, a, t, part)
    ensures |part| <= 0xffff && a + HEADER_SIZE + |part| <= |w| && w[a..a + HEADER_SIZE + |part|] == Physical(t, part)
    decreases |data|, Rank(p)
  {
    hide *;
    FragmentAtUnfold(p, data, begin, a, t, part);
    ContinuesStands(w, p, data, begin);
    StandsIs(w, p, data, begin);
    var n, q := FragmentLength(p, data), FragmentEnd(p, data);
    if n < |data| && FragmentAt(q, data[n..], false, a, t, part) {
      Later(p, data, begin, a, t, part);
      FragmentBytes(w, q, data[n..], false, a, t, part);
    }
  }

  lemma AtStart(w: seq<Byte>)
    ensures At(w, START, 0) && START.end <= |w| && START.drops == []
  {
  }

  lemma PatchedBefore(w: seq<Byte>, w2: seq<Byte>, a: nat, b: nat)
    requires Patched(w, w2, a, b)
    ensures a <= |w| == |w2| && w2[..a] == w[..a]
  {
  }

  lemma ReportedStays(w: seq<Byte>, a: nat, part: seq<Byte>, drops: seq<nat>, more: seq<nat>)
    requires a + HEADER_SIZE <= |w| && Reported(w, a, part, drops) && forall d :: d in drops ==> d in more
    ensures Reported(w, a, part, more)
  {
  }

  lemma SameReadAll(w: seq<Byte>, s: State, s2: State)
    requires s.end <= |w| && s2.end <= |w| && ReadFrom(w, s, false, []) == ReadFrom(w, s2, false, [])
    ensures ReadAll(w, s) == ReadAll(w, s2)
  {
    hide *;
    ReadAllUnfold(w, s);
    ReadAllUnfold(w, s2);
  }

  lemma ReadAfter(records: seq<seq<Byte>>, w2: seq<Byte>, k: nat, a: nat, b: nat, s: State) returns (m: nat)
    requires Patched(FileOf(records), w2, a, b) && k < |records| && FirstHeader(records, k) <= a < b <= a + Leftover(a)
    requires At(w2, s, BlockStop(a, |w2|)) && b <= Start(records, k + 1)
    ensures s.end <= |w2| && k < m <= |records| && ReadAll(w2, s).0 == records[m..]
    ensures FirstHeader(records, m - 1) < a + Leftover(a) && (m < |records| ==> a + Leftover(a) <= FirstHeader(records, m))
    ensures forall d :: d in s.drops ==> d in ReadAll(w2, s).1.drops
  {
    hide *;
    var p, s1;
    m, p, s1 := Resume(records, w2, k, a, b, s);
    SameReadAll(w2, s, s1);
    StartsGrow(records, k + 1, m);
    ReadToEnd(records, w2, a, b, m, p, s1);
  }

  lemma ReadToEnd(records: seq<seq<Byte>>, w2: seq<Byte>, a: nat, b: nat, m: nat, p: nat, s: State)
    requires Patched(FileOf(records), w2, a, b) && m <= |records| && At(w2, s, p) && b <= Start(records, m)
    requires p == Start(records, m) || (m < |records| && p == FirstHeader(records, m))
    ensures s.end <= |w2| && ReadAll(w2, s).0 == records[m..] && ReadAll(w2, s).1.drops == s.drops
  {
    hide *;
    AtWithin(w2, s, p);
    PatchedIs(FileOf(records), w2, a, b);
    if m == |records| {
      StartsGrow(records, 0, m);
      AllRead(w2, s);
      assert records[m..] == [];
    } else {
      forall r: nat | m <= r < |records| ensures Continues(w2, Start(records, r), records[r], true) {
        StartsGrow(records, m, r);
        OtherRecords(records, w2, a, b, r);
      }
      var s1 := ReadOne(w2, records, m, s, p);
      var s2 := ReadIntact(w2, records, m + 1, |records|, s1);
      StartsGrow(records, 0, |records|);
      AllRead(w2, s2);
      assert records[m..] == [records[m]] + (records[m + 1..|records|] + []);
    }
  }

  lemma AllRead(w: seq<Byte>, s: State)
    requires At(w, s, |w|)
    ensures s.end <= |w| && ReadAll(w, s).0 == [] && ReadAll(w, s).1.drops == s.drops
  {
    hide *;
    NothingLeft(w, s);
    ReadAllUnfold(w, s);
  }
}
