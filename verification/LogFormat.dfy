/** The record log: what the writer puts into a file. */
module LogFormat {
  import opened Crc32c

  const BLOCK_SIZE: nat := 32768
  const HEADER_SIZE: nat := 7

  const ZERO_TYPE: Byte := 0
  const FULL_TYPE: Byte := 1
  const FIRST_TYPE: Byte := 2
  const MIDDLE_TYPE: Byte := 3
  const LAST_TYPE: Byte := 4

  function FragmentType(begin: bool, end: bool): Byte {
    if begin && end then FULL_TYPE else if begin then FIRST_TYPE else if end then LAST_TYPE else MIDDLE_TYPE
  }

  /** Checksum, length and type of a physical record. */
  function Header(t: Byte, data: seq<Byte>): (h: seq<Byte>)
    requires |data| <= 0xffff
    ensures |h| == HEADER_SIZE
  {
    EncodeFixed32(Mask(Extend(Value([t]), data))) + [LowByte(|data|), LowByte(|data| / 256), t]
  }

  function Physical(t: Byte, data: seq<Byte>): (r: seq<Byte>)
    requires |data| <= 0xffff
    ensures |r| == HEADER_SIZE + |data|
  {
    Header(t, data) + data
  }

  function Zeros(n: nat): (z: seq<Byte>)
    ensures |z| == n
  {
    seq(n, _ => 0)
  }

  // ---------------------------------------------------------------- where the next fragment goes

  /** Bytes left in the block that holds file position `p`. */
  function Leftover(p: nat): (n: nat)
    ensures 1 <= n <= BLOCK_SIZE
  {
    BLOCK_SIZE - p % BLOCK_SIZE
  }

  /** The trailer skipped when no header fits into the rest of the block. */
  function Trailer(p: nat): nat {
    if Leftover(p) < HEADER_SIZE then Leftover(p) else 0
  }

  /** How much of `data` fits into the block of the next header. */
  function FragmentLength(p: nat, data: seq<Byte>): (n: nat)
    ensures n <= |data| && n <= BLOCK_SIZE - HEADER_SIZE
    ensures n < |data| ==> n == Leftover(p + Trailer(p)) - HEADER_SIZE
  {
    assert Leftover(p + Trailer(p)) >= HEADER_SIZE by { AfterTrailer(p); }
    var avail := Leftover(p + Trailer(p)) - HEADER_SIZE;
    if |data| < avail then |data| else avail
  }

  lemma AfterTrailer(p: nat)
    ensures Leftover(p + Trailer(p)) >= HEADER_SIZE
    ensures Trailer(p) > 0 ==> Leftover(p + Trailer(p)) == BLOCK_SIZE && (p + Trailer(p)) % BLOCK_SIZE == 0
  {
    if Trailer(p) > 0 {
      BlockEnd(p);
    }
  }

  lemma BlockEnd(p: nat)
    ensures (p + Leftover(p)) % BLOCK_SIZE == 0
    ensures p + Leftover(p) == (p / BLOCK_SIZE + 1) * BLOCK_SIZE
  {
    assert p == p / BLOCK_SIZE * BLOCK_SIZE + p % BLOCK_SIZE;
    assert (p / BLOCK_SIZE + 1) * BLOCK_SIZE % BLOCK_SIZE == 0 by { MultipleMod(p / BLOCK_SIZE + 1); }
  }

  lemma {:induction false} MultipleMod(k: nat)
    ensures k * BLOCK_SIZE % BLOCK_SIZE == 0
  {
  }

  /** The end of the next physical record. */
  function FragmentEnd(p: nat, data: seq<Byte>): nat {
    p + Trailer(p) + HEADER_SIZE + FragmentLength(p, data)
  }

  /** After a fragment that was cut short the block is full. */
  lemma FullBlock(p: nat, data: seq<Byte>)
    requires FragmentLength(p, data) < |data|
    ensures FragmentEnd(p, data) % BLOCK_SIZE == 0
  {
    BlockEnd(p + Trailer(p));
  }

  /** The next physical record with the trailer it may have to skip. */
  function Fragment(p: nat, data: seq<Byte>, begin: bool): (r: seq<Byte>)
    ensures |r| == FragmentEnd(p, data) - p
  {
    var n := FragmentLength(p, data);
    Zeros(Trailer(p)) + Physical(FragmentType(begin, n == |data|), data[..n])
  }

  /** An empty fragment can only fill up a block that has been started. */
  ghost function Rank(p: nat): nat {
    if p % BLOCK_SIZE == 0 then 0 else 1
  }

  /** The bytes of one logical record, or of its rest, appended at file position `p`. */
  function Emit(p: nat, data: seq<Byte>, begin: bool): (r: seq<Byte>)
    ensures |r| >= FragmentEnd(p, data) - p
    decreases |data|, Rank(p)
  {
    var n := FragmentLength(p, data);
    if n == |data| then Fragment(p, data, begin)
    else
      Progress(p, data);
      Fragment(p, data, begin) + Emit(FragmentEnd(p, data), data[n..], false)
  }

  lemma Progress(p: nat, data: seq<Byte>)
    requires FragmentLength(p, data) < |data|
    ensures FragmentEnd(p, data) % BLOCK_SIZE == 0 && (FragmentLength(p, data) == 0 ==> p % BLOCK_SIZE != 0)
    ensures FragmentLength(p, data) == 0 ==> Rank(FragmentEnd(p, data)) < Rank(p)
  {
    FullBlock(p, data);
    if FragmentLength(p, data) == 0 { EmptyFragment(p, data); }
  }

  lemma EmptyFragment(p: nat, data: seq<Byte>)
    requires FragmentLength(p, data) == 0 && |data| > 0
    ensures p % BLOCK_SIZE != 0
  {
    AfterTrailer(p);
  }

  /** The whole file after writing the records in order. */
  function FileOf(records: seq<seq<Byte>>): seq<Byte> {
    if records == [] then []
    else
      var front := FileOf(records[..|records| - 1]);
      front + Emit(|front|, records[|records| - 1], true)
  }

  // ---------------------------------------------------------------- the writer

  class Writer {
    var dest: seq<Byte>
    var blockOffset: nat

    ghost predicate Valid()
      reads this
    {
      blockOffset == |dest| % BLOCK_SIZE || (blockOffset == BLOCK_SIZE && |dest| % BLOCK_SIZE == 0)
    }

    /** Writing to an empty file, or continuing one of the given contents. */
    constructor (contents: seq<Byte>)
      ensures Valid() && dest == contents
    {
      dest := contents;
      blockOffset := |contents| % BLOCK_SIZE;
    }

    method EmitPhysicalRecord(t: Byte, data: seq<Byte>)
      requires Valid() && blockOffset + HEADER_SIZE + |data| <= BLOCK_SIZE
      modifies this
      ensures Valid() && dest == old(dest) + Physical(t, data)
    {
      hide Header, Physical;
      PhysicalParts(dest, t, data);
      ghost var p := |dest|;
      dest := dest + Header(t, data);
      dest := dest + data;
      OffsetAdds(p, blockOffset, HEADER_SIZE + |data|);
      blockOffset := blockOffset + HEADER_SIZE + |data|;
      assert |dest| == p + (HEADER_SIZE + |data|);
    }

    /** Skips the rest of a block that is too small for a header. */
    method SkipTrailer()
      requires Valid()
      modifies this
      ensures Valid() && dest == old(dest) + Zeros(Trailer(old(|dest|)))
      ensures blockOffset == |dest| % BLOCK_SIZE && BLOCK_SIZE - blockOffset == Leftover(|dest|) >= HEADER_SIZE
    {
      AfterTrailer(|dest|);
      var leftover := BLOCK_SIZE - blockOffset;
      if leftover < HEADER_SIZE {
        if leftover > 0 {
          dest := dest + Zeros(leftover);
        }
        blockOffset := 0;
      }
    }

    /** One round of `AddRecord`: as much of the record as fits into the block. */
    method AddFragment(rest: seq<Byte>, begin: bool) returns (n: nat)
      requires Valid()
      modifies this
      ensures Valid() && n == FragmentLength(old(|dest|), rest)
      ensures dest == old(dest) + Zeros(Trailer(old(|dest|))) + Physical(FragmentType(begin, n == |rest|), rest[..n])
    {
      hide *;
      ghost var p := |dest|;
      TrailerEnds(dest);
      SkipTrailer();
      var avail := BLOCK_SIZE - blockOffset - HEADER_SIZE;
      n := if |rest| < avail then |rest| else avail;
      FragmentFits(p, rest, avail, n);
      EmitPhysicalRecord(FragmentType(begin, n == |rest|), rest[..n]);
    }

    /** Fragments the record over blocks; an empty record still gets one header. */
    method AddRecord(slice: seq<Byte>)
      requires Valid()
      modifies this
      ensures Valid() && dest == old(dest) + Emit(old(|dest|), slice, true)
    {
      assert BLOCK_SIZE > 0;
      hide *;
      var rest, begin, more := slice, true, true;
      ghost var goal := dest + Emit(|dest|, slice, true);
      ghost var aligned := |dest| % BLOCK_SIZE == 0;
      while more
        invariant Valid()
        invariant more ==> goal == dest + Emit(|dest|, rest, begin) && aligned == (|dest| % BLOCK_SIZE == 0)
        invariant !more ==> goal == dest
        decreases more, |rest|, !aligned
      {
        ghost var start := dest;
        var n := AddFragment(rest, begin);
        EmitStep(start, rest, begin, n, dest);
        aligned := |dest| % BLOCK_SIZE == 0;
        rest, begin := rest[n..], false;
        more := |rest| > 0;
      }
    }
  }

  lemma TrailerEnds(dest: seq<Byte>)
    ensures |dest + Zeros(Trailer(|dest|))| == |dest| + Trailer(|dest|)
  {
  }

  lemma PhysicalParts(dest: seq<Byte>, t: Byte, data: seq<Byte>)
    requires |data| <= 0xffff
    ensures dest + Header(t, data) + data == dest + Physical(t, data)
  {
    hide Header;
    assert dest + Header(t, data) + data == dest + (Header(t, data) + data);
  }

  lemma FragmentFits(p: nat, data: seq<Byte>, avail: nat, n: nat)
    requires avail == Leftover(p + Trailer(p)) - HEADER_SIZE && n == if |data| < avail then |data| else avail
    ensures n == FragmentLength(p, data)
  {
  }

  lemma EmitUnfold(p: nat, data: seq<Byte>, begin: bool)
    ensures FragmentLength(p, data) == |data| ==> Emit(p, data, begin) == Fragment(p, data, begin)
    ensures FragmentLength(p, data) < |data| ==>
              Emit(p, data, begin) == Fragment(p, data, begin) + Emit(FragmentEnd(p, data), data[FragmentLength(p, data)..], false)
  {
    hide Fragment, FragmentEnd, FragmentLength;
  }

  lemma FragmentUnfold(start: seq<Byte>, data: seq<Byte>, begin: bool)
    ensures var n := FragmentLength(|start|, data);
            start + Zeros(Trailer(|start|)) + Physical(FragmentType(begin, n == |data|), data[..n]) ==
              start + Fragment(|start|, data, begin)
  {
    hide Zeros, Trailer, Physical, FragmentType, FragmentLength;
    var n := FragmentLength(|start|, data);
    Concat3(start, Zeros(Trailer(|start|)), Physical(FragmentType(begin, n == |data|), data[..n]));
  }

  lemma Concat3(a: seq<Byte>, b: seq<Byte>, c: seq<Byte>)
    ensures (a + b) + c == a + (b + c) && |a + b| == |a| + |b|
  {
  }

  lemma EmitStep(start: seq<Byte>, rest: seq<Byte>, begin: bool, n: nat, dest: seq<Byte>)
    requires n == FragmentLength(|start|, rest)
    requires dest == start + Zeros(Trailer(|start|)) + Physical(FragmentType(begin, n == |rest|), rest[..n])
    ensures n == |rest| ==> dest == start + Emit(|start|, rest, begin)
    ensures n < |rest| ==> start + Emit(|start|, rest, begin) == dest + Emit(|dest|, rest[n..], false)
    ensures n < |rest| ==> |dest| % BLOCK_SIZE == 0 && (n == 0 ==> |start| % BLOCK_SIZE != 0)
  {
    hide *;
    var p := |start|;
    FragmentUnfold(start, rest, begin);
    EmitUnfold(p, rest, begin);
    if n < |rest| {
      Progress(p, rest);
      Concat3(start, Fragment(p, rest, begin), Emit(FragmentEnd(p, rest), rest[n..], false));
    }
  }

  lemma OffsetAdds(p: nat, offset: nat, n: nat)
    requires offset == p % BLOCK_SIZE || (offset == BLOCK_SIZE && p % BLOCK_SIZE == 0)
    requires offset + n <= BLOCK_SIZE
    ensures offset + n == (p + n) % BLOCK_SIZE || (offset + n == BLOCK_SIZE && (p + n) % BLOCK_SIZE == 0)
  {
  }
}
