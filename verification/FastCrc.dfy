/** The checksum as it is computed: by tables, and sixteen bytes at a time in four interleaved
    strides that are combined at the end. */
module FastCrc {
  import opened Crc32c
  import opened CrcProof

  // ---------------------------------------------------------------- the tables

  /** `kByteExtensionTable`: what one byte does to an empty register. */
  function ByteTable(c: Byte): Word {
    Shift(c, 8)
  }

  /** `kStrideExtensionTable0` to `3`: a byte of a stride, sixteen bytes on. */
  function StrideTable(k: nat, c: Byte): Word
    requires k < 4
  {
    Shift(c, 104 + 8 * k)
  }

  lemma LowXor(l: Word, b: Byte)
    ensures XorWord(LowByte(l), b) < 256
  {
    Powers();
    assert 0 <= LowByte(l) < 256;
    hide Xor, Power2, LowByte;
    XorNarrow(LowByte(l), b, 8, 32);
  }

  lemma LowAndHigh(l: Word, b: Byte, high: Word)
    requires high == (l / 256) * 256
    ensures XorWord(l, b) == XorWord(XorWord(LowByte(l), b), high)
  {
    var low := LowByte(l);
    assert low + (l / 256) * 0x100 == l && low < 256;
    hide *;
    WordSum(low, l / 256, 8, 0x100);
    WordCommutes(low, high);
    WordAssociates(high, low, b);
    WordCommutes(high, XorWord(low, b));
  }

  lemma {:induction false} XorNarrow(a: nat, b: nat, k: nat, bits: nat)
    requires a < Power2(k) && b < Power2(k) && k <= bits
    ensures Xor(a, b, bits) < Power2(k)
    decreases bits
  {
    if k == bits {
      XorBound(a, b, bits, Power2(k));
    } else {
      XorNarrow(a, b, k, bits - 1);
      PowerGrows(k, bits - 1);
      XorMore(a, b, bits - 1);
    }
  }

  lemma {:induction false} PowerGrows(k: nat, n: nat)
    requires k <= n
    ensures Power2(k) <= Power2(n)
    decreases n
  {
    if k < n { PowerGrows(k, n - 1); }
  }

  /** One byte by table: the byte leaving the register picks the entry. */
  method StepTable(l: Word, b: Byte) returns (r: Word)
    ensures r == StepByte(l, b)
  {
    LowXor(l, b);
    TableStep(l, b);
    hide *;
    var c: Byte := XorWord(LowByte(l), b);
    r := XorWord(ByteTable(c), l / 256);
  }

  lemma TableStep(l: Word, b: Byte)
    requires XorWord(LowByte(l), b) < 256
    ensures StepByte(l, b) == XorWord(ByteTable(XorWord(LowByte(l), b)), l / 256)
  {
    hide *;
    var c: Byte, up: Word := XorWord(LowByte(l), b), l / 256;
    var high: Word := up * 256;
    LowAndHigh(l, b, high);
    ByTable(l, b, c);
    ShiftLinear(c, high, 8);
    HighOut(up, high);
  }

  lemma ByTable(l: Word, b: Byte, c: Byte)
    ensures StepByte(l, b) == Shift(XorWord(l, b), 8) && ByteTable(c) == Shift(c, 8)
  {
    hide Shift, XorWord;
  }

  lemma HighOut(up: Word, high: Word)
    requires high == up * 256
    ensures Shift(high, 8) == up
  {
    Powers();
    hide Shift;
    ShiftOut(up, 8);
  }

  // ---------------------------------------------------------------- words and strides

  /** The register after one more word. */
  function StepOf(l: Word, w: Word): Word {
    Shift(XorWord(w, l), 32)
  }

  /** What the four partial results stand for. */
  function Combine(c0: Word, c1: Word, c2: Word, c3: Word): Word {
    StepOf(StepOf(StepOf(StepOf(0, c0), c1), c2), c3)
  }

  method StepStride(c: Word, d: Word) returns (r: Word)
    ensures r == XorWord(d, Shift(c, 128))
  {
    hide *;
    StrideByTables(c, d);
    r := XorWord(XorWord(XorWord(XorWord(d, StrideTable(3, LowByte(c))), StrideTable(2, LowByte(c / 0x100))),
                         StrideTable(1, LowByte(c / 0x1_0000))), StrideTable(0, LowByte(c / 0x100_0000)));
  }

  lemma StrideByTables(c: Word, d: Word)
    ensures XorWord(d, Shift(c, 128)) ==
            XorWord(XorWord(XorWord(XorWord(d, StrideTable(3, LowByte(c))), StrideTable(2, LowByte(c / 0x100))),
                            StrideTable(1, LowByte(c / 0x1_0000))), StrideTable(0, LowByte(c / 0x100_0000)))
  {
    var b := EncodeFixed32(c);
    assert b[0] == LowByte(c) && b[1] == LowByte(c / 0x100) && b[2] == LowByte(c / 0x1_0000) && b[3] == LowByte(c / 0x100_0000);
    DecodeEncodeFixed32(c);
    assert WordOf(b) == c;
    hide *;
    var t3, t2, t1, t0 := StrideTable(3, b[0]), StrideTable(2, b[1]), StrideTable(1, b[2]), StrideTable(0, b[3]);
    StrideShift(b);
    WordAssociates5(d, t3, t2, t1, t0);
  }

  lemma TableShift(b: Byte)
    ensures StrideTable(3, b) == Shift(b, 128)
    ensures StrideTable(2, b) == Shift((b as int) * 0x100, 128)
    ensures StrideTable(1, b) == Shift((b as int) * 0x1_0000, 128)
    ensures StrideTable(0, b) == Shift((b as int) * 0x100_0000, 128)
  {
    BytesAhead(b);
    hide Shift;
    ShiftAdds((b as int) * 0x100, 8, 120);
    ShiftAdds((b as int) * 0x1_0000, 16, 112);
    ShiftAdds((b as int) * 0x100_0000, 24, 104);
  }

  lemma StrideShift(b: seq<Byte>)
    requires |b| == 4
    ensures Shift(WordOf(b), 128) ==
            XorWord(XorWord(XorWord(StrideTable(3, b[0]), StrideTable(2, b[1])), StrideTable(1, b[2])), StrideTable(0, b[3]))
  {
    hide *;
    var c: Word, d: Word, e: Word := (b[1] as int) * 0x100, (b[2] as int) * 0x1_0000, (b[3] as int) * 0x100_0000;
    WordOfXor(b);
    TableShift(b[0]);
    TableShift(b[1]);
    TableShift(b[2]);
    TableShift(b[3]);
    ShiftLinear(b[0], c, 128);
    ShiftLinear(XorWord(b[0], c), d, 128);
    ShiftLinear(XorWord(XorWord(b[0], c), d), e, 128);
  }

  lemma StepOfStarts(l: Word, w: Word)
    ensures StepOf(l, w) == Shift(XorWord(w, l), 32) && Shift(XorWord(w, l), 0) == XorWord(w, l)
  {
    hide XorWord;
  }

  /** Shifting a word into the register a byte at a time. */
  method StepWordTable(l: Word, w: Word) returns (r: Word)
    ensures r == StepOf(l, w)
  {
    hide *;
    r := XorWord(w, l);
    StepOfStarts(l, w);
    ghost var start := r;
    for i := 0 to 4
      invariant r == Shift(start, 8 * i)
    {
      ShiftAdds(start, 8 * i, 8);
      ShiftByte(r);
      r := XorWord(r / 256, ByteTable(LowByte(r)));
    }
  }

  lemma ShiftByte(w: Word)
    ensures Shift(w, 8) == XorWord(w / 256, ByteTable(LowByte(w)))
  {
    hide *;
    var low, up: Word := LowByte(w), w / 256;
    WordZero(w);
    WordZero(low);
    ByTable(w, 0, low);
    TableStep(w, 0);
    WordCommutes(ByteTable(low), up);
  }

  lemma StepOfSplit(l: Word, m: Word, w: Word)
    ensures StepOf(XorWord(l, m), w) == XorWord(StepOf(l, w), Shift(m, 32))
  {
    hide XorWord, Shift;
    WordAssociates(w, l, m);
    ShiftLinear(XorWord(w, l), m, 32);
  }

  /** One word more, with the oldest stride carried over it. */
  lemma Rotate(c0: Word, c1: Word, c2: Word, c3: Word, d: Word)
    ensures StepOf(Combine(c0, c1, c2, c3), d) == Combine(c1, c2, c3, XorWord(d, Shift(c0, 128)))
  {
    assert StepOf(0, c0) == Shift(XorWord(c0, 0), 32);
    assert Combine(c0, c1, c2, c3) == StepOf(StepOf(StepOf(StepOf(0, c0), c1), c2), c3);
    var s := Shift(c0, 128);
    assert Combine(c1, c2, c3, XorWord(d, s)) == StepOf(StepOf(StepOf(StepOf(0, c1), c2), c3), XorWord(d, s));
    hide *;
    WordZero(c0);
    Carried(Shift(c0, 32), c1, c2, c3);
    ShiftAdds(c0, 32, 96);
    Moved(StepOf(StepOf(StepOf(0, c1), c2), c3), s, d);
  }

  lemma Carried(m: Word, c1: Word, c2: Word, c3: Word)
    ensures StepOf(StepOf(StepOf(m, c1), c2), c3) == XorWord(StepOf(StepOf(StepOf(0, c1), c2), c3), Shift(m, 96))
  {
    hide *;
    WordZero(m);
    StepOfSplit(0, m, c1);
    StepOfSplit(StepOf(0, c1), Shift(m, 32), c2);
    ShiftAdds(m, 32, 32);
    StepOfSplit(StepOf(StepOf(0, c1), c2), Shift(m, 64), c3);
    ShiftAdds(m, 64, 32);
  }

  lemma Moved(l: Word, s: Word, d: Word)
    ensures StepOf(XorWord(l, s), d) == StepOf(l, XorWord(d, s))
  {
    hide XorWord, Shift;
    WordCommutes(l, s);
    WordAssociates(d, s, l);
  }

  // ---------------------------------------------------------------- the loops

  lemma TakeWord(l: Word, data: seq<Byte>, p: nat)
    requires p + 4 <= |data|
    ensures Step(l, data[p..]) == Step(StepOf(l, WordOf(data[p..p + 4])), data[p + 4..])
  {
    var b := data[p..p + 4];
    assert data[p..] == b + data[p + 4..];
    hide *;
    StepOfStarts(l, WordOf(b));
    StepConcat(l, b, data[p + 4..]);
    StepWord(l, b);
    WordCommutes(l, WordOf(b));
  }

  lemma TakeByte(l: Word, data: seq<Byte>, p: nat)
    requires p < |data|
    ensures Step(l, data[p..]) == Step(StepByte(l, data[p]), data[p + 1..])
  {
    hide StepByte;
    assert data[p..][1..] == data[p + 1..];
  }

  /** Loading the first sixteen bytes. */
  lemma LoadStrides(l: Word, data: seq<Byte>, p: nat)
    requires p + 16 <= |data|
    ensures Step(l, data[p..]) ==
            Step(Combine(XorWord(WordOf(data[p..p + 4]), l), WordOf(data[p + 4..p + 8]), WordOf(data[p + 8..p + 12]),
                         WordOf(data[p + 12..p + 16])), data[p + 16..])
  {
    var w := WordOf(data[p..p + 4]);
    hide *;
    StepOfStarts(l, w);
    StepOfStarts(0, XorWord(w, l));
    CombineIs(XorWord(w, l), WordOf(data[p + 4..p + 8]), WordOf(data[p + 8..p + 12]), WordOf(data[p + 12..p + 16]));
    WordZero(XorWord(w, l));
    TakeWord(l, data, p);
    var l1 := StepOf(l, w);
    TakeWord(l1, data, p + 4);
    var l2 := StepOf(l1, WordOf(data[p + 4..p + 8]));
    TakeWord(l2, data, p + 8);
    TakeWord(StepOf(l2, WordOf(data[p + 8..p + 12])), data, p + 12);
  }

  lemma CombineIs(c0: Word, c1: Word, c2: Word, c3: Word)
    ensures Combine(c0, c1, c2, c3) == StepOf(StepOf(StepOf(StepOf(0, c0), c1), c2), c3)
  {
    hide StepOf;
  }

  /** One word read, the oldest stride carried over it. */
  lemma TakeStride(c0: Word, c1: Word, c2: Word, c3: Word, data: seq<Byte>, p: nat)
    requires p + 4 <= |data|
    ensures Step(Combine(c0, c1, c2, c3), data[p..]) ==
            Step(Combine(c1, c2, c3, XorWord(WordOf(data[p..p + 4]), Shift(c0, 128))), data[p + 4..])
  {
    hide *;
    TakeWord(Combine(c0, c1, c2, c3), data, p);
    Rotate(c0, c1, c2, c3, WordOf(data[p..p + 4]));
  }

  lemma {:induction false} XorOnes(x: nat, bits: nat)
    requires x < Power2(bits)
    ensures Xor(x, Power2(bits) - 1, bits) == Power2(bits) - 1 - x
    decreases bits
  {
    if bits > 0 {
      var ones := Power2(bits) - 1;
      assert ones / 2 == Power2(bits - 1) - 1 && ones % 2 == 1;
      XorOnes(x / 2, bits - 1);
    }
  }

  lemma Ones(x: Word)
    ensures XorWord(x, 0xffff_ffff) == Complement(x)
  {
    Power32();
    XorOnes(x, 32);
  }

  /** Sixteen bytes: one step of each stride. */
  method StepSwath(c0: Word, c1: Word, c2: Word, c3: Word, data: seq<Byte>, p: nat)
    returns (d0: Word, d1: Word, d2: Word, d3: Word)
    requires p + 16 <= |data|
    ensures Step(Combine(d0, d1, d2, d3), data[p + 16..]) == Step(Combine(c0, c1, c2, c3), data[p..])
  {
    hide *;
    TakeStride(c0, c1, c2, c3, data, p);
    d0 := StepStride(c0, WordOf(data[p..p + 4]));
    TakeStride(c1, c2, c3, d0, data, p + 4);
    d1 := StepStride(c1, WordOf(data[p + 4..p + 8]));
    TakeStride(c2, c3, d0, d1, data, p + 8);
    d2 := StepStride(c2, WordOf(data[p + 8..p + 12]));
    TakeStride(c3, d0, d1, d2, data, p + 12);
    d3 := StepStride(c3, WordOf(data[p + 12..p + 16]));
  }

  /** The strides from `p` on, as long as whole words are left. */
  method Strides(l: Word, data: seq<Byte>, p: nat) returns (r: Word, q: nat)
    requires p + 16 <= |data|
    ensures p < q <= |data| && Step(r, data[q..]) == Step(l, data[p..])
  {
    hide *;
    LoadStrides(l, data, p);
    ghost var goal := Step(l, data[p..]);
    var crc0, crc1 := XorWord(WordOf(data[p..p + 4]), l), WordOf(data[p + 4..p + 8]);
    var crc2, crc3 := WordOf(data[p + 8..p + 12]), WordOf(data[p + 12..p + 16]);
    q := p + 16;
    while |data| - q >= 16
      invariant p < q <= |data| && goal == Step(Combine(crc0, crc1, crc2, crc3), data[q..])
    {
      crc0, crc1, crc2, crc3 := StepSwath(crc0, crc1, crc2, crc3, data, q);
      q := q + 16;
    }
    while |data| - q >= 4
      invariant p < q <= |data| && goal == Step(Combine(crc0, crc1, crc2, crc3), data[q..])
    {
      TakeStride(crc0, crc1, crc2, crc3, data, q);
      var next := StepStride(crc0, WordOf(data[q..q + 4]));
      crc0, crc1, crc2, crc3 := crc1, crc2, crc3, next;
      q := q + 4;
    }
    CombineIs(crc0, crc1, crc2, crc3);
    r := StepWordTable(0, crc0);
    r := StepWordTable(r, crc1);
    r := StepWordTable(r, crc2);
    r := StepWordTable(r, crc3);
  }

  /** Byte by byte from `p` to `q`. */
  method Bytes(l: Word, data: seq<Byte>, p: nat, q: nat) returns (r: Word)
    requires p <= q <= |data|
    ensures Step(r, data[q..]) == Step(l, data[p..])
  {
    hide *;
    r := l;
    for i := p to q
      invariant Step(r, data[i..]) == Step(l, data[p..])
    {
      TakeByte(r, data, i);
      r := StepTable(r, data[i]);
    }
  }

  lemma Ends(crc: Word, data: seq<Byte>, l: Word)
    requires Step(l, data[|data|..]) == Step(Complement(crc), data[0..])
    ensures Complement(l) == Extend(crc, data)
  {
    assert data[0..] == data && data[|data|..] == [];
  }

  /** `crc32c::Extend` without acceleration, for data at any address: the result does not depend on
      where the data lies. */
  method ExtendFast(crc: Word, data: seq<Byte>, address: nat) returns (r: Word)
    ensures r == Extend(crc, data)
  {
    hide *;
    Ones(crc);
    var l := XorWord(crc, 0xffff_ffff);
    var p, x := 0, (address + 3) / 4 * 4 - address;
    if x <= |data| {
      l := Bytes(l, data, p, x);
      p := x;
    }
    if |data| - p >= 16 {
      l, p := Strides(l, data, p);
    }
    l := Bytes(l, data, p, |data|);
    Ends(crc, data, l);
    Ones(l);
    r := XorWord(l, 0xffff_ffff);
  }

  // ---------------------------------------------------------------- entries of the tables

  function Differ(x: nat, y: nat): nat {
    if x == y then 0 else 1
  }

  lemma XorLowBit(a: nat, b: nat, bits: nat, x: nat, y: nat, z: nat)
    requires x < 2 && y < 2 && z == Differ(x, y)
    ensures Xor(2 * a + x, 2 * b + y, bits + 1) == 2 * Xor(a, b, bits) + z
  {
  }

  lemma XorLowPair(a: nat, b: nat, bits: nat, x: nat, y: nat, z: nat)
    requires x < 4 && y < 4 && z < 4 && z % 2 == Differ(x % 2, y % 2) && z / 2 == Differ(x / 2, y / 2)
    ensures Xor(4 * a + x, 4 * b + y, bits + 2) == 4 * Xor(a, b, bits) + z
  {
    hide Xor;
    XorLowBit(a, b, bits, x / 2, y / 2, z / 2);
    XorLowBit(2 * a + x / 2, 2 * b + y / 2, bits + 1, x % 2, y % 2, z % 2);
  }

  predicate XorOfNibbles(x: nat, y: nat, z: nat) {
    && x < 16 && y < 16 && z < 16
    && z % 2 == Differ(x % 2, y % 2) && z / 2 % 2 == Differ(x / 2 % 2, y / 2 % 2)
    && z / 4 % 2 == Differ(x / 4 % 2, y / 4 % 2) && z / 8 == Differ(x / 8, y / 8)
  }

  lemma DigitBits(x: nat)
    requires x < 16
    ensures x % 4 % 2 == x % 2 && x % 4 / 2 == x / 2 % 2 && x / 4 / 2 == x / 8 && x == 4 * (x / 4) + x % 4
    ensures x / 4 < 4 && x % 4 < 4
  {
  }

  /** Exclusive or with one more hexadecimal digit at the low end. */
  lemma XorLow(a: nat, b: nat, bits: nat, x: nat, y: nat, z: nat)
    requires XorOfNibbles(x, y, z)
    ensures Xor(16 * a + x, 16 * b + y, bits + 4) == 16 * Xor(a, b, bits) + z
  {
    hide Xor;
    DigitBits(x);
    DigitBits(y);
    DigitBits(z);
    var xh, xl, yh, yl, zh, zl := x / 4, x % 4, y / 4, y % 4, z / 4, z % 4;
    XorTwoPairs(a, b, bits, xh, xl, yh, yl, zh, zl);
  }

  lemma XorTwoPairs(a: nat, b: nat, bits: nat, xh: nat, xl: nat, yh: nat, yl: nat, zh: nat, zl: nat)
    requires xh < 4 && yh < 4 && zh < 4 && zh % 2 == Differ(xh % 2, yh % 2) && zh / 2 == Differ(xh / 2, yh / 2)
    requires xl < 4 && yl < 4 && zl < 4 && zl % 2 == Differ(xl % 2, yl % 2) && zl / 2 == Differ(xl / 2, yl / 2)
    ensures Xor(16 * a + (4 * xh + xl), 16 * b + (4 * yh + yl), bits + 4) == 16 * Xor(a, b, bits) + (4 * zh + zl)
  {
    XorLowPair(a, b, bits, xh, yh, zh);
    XorLowPair(4 * a + xh, 4 * b + yh, bits + 2, xl, yl, zl);
    hide Xor;
    assert 4 * (4 * a + xh) + xl == 16 * a + (4 * xh + xl);
    assert 4 * (4 * b + yh) + yl == 16 * b + (4 * yh + yl);
  }

  /** Halving an even index takes one step of the register. */
  lemma HalfEntry(c: Byte, d: Byte)
    requires c == 2 * (d as int)
    ensures ByteTable(d) == ShiftOne(ByteTable(c))
  {
    hide *;
    ShiftOneUnfold(c, d);
    ShiftEnds(c, d);
    ShiftAdds(c, 8, 1);
    ShiftAdds(c, 1, 8);
  }

  lemma ShiftEnds(c: Byte, d: Byte)
    ensures Shift(c, 1) == ShiftOne(c) && Shift(ByteTable(c), 1) == ShiftOne(ByteTable(c))
    ensures ByteTable(c) == Shift(c, 8) && ByteTable(d) == Shift(d, 8)
  {
    hide ShiftOne;
    assert forall l: Word :: Shift(l, 1) == Shift(ShiftOne(l), 0);
    hide Shift;
  }

  lemma OddStep8()
    ensures ShiftOne(0x105ec76f) == 0x8ad958cf
  {
    XorNothing();
    hide Xor;
    XorLow(0, 0, 0, 0x0, 0x8, 0x8);
    XorLow(0x0, 0x8, 4, 0x8, 0x2, 0xa);
    XorLow(0x8, 0x82, 8, 0x2, 0xf, 0xd);
    XorLow(0x82, 0x82f, 12, 0xf, 0x6, 0x9);
    XorLow(0x82f, 0x82f6, 16, 0x6, 0x3, 0x5);
    XorLow(0x82f6, 0x82f63, 20, 0x3, 0xb, 0x8);
    XorLow(0x82f63, 0x82f63b, 24, 0xb, 0x7, 0xc);
    XorLow(0x82f63b, 0x82f63b7, 28, 0x7, 0x8, 0xf);
  }

  lemma OddStep4()
    ensures ShiftOne(0x8ad958cf) == 0xc79a971f
  {
    XorNothing();
    hide Xor;
    XorLow(0, 0, 0, 0x4, 0x8, 0xc);
    XorLow(0x4, 0x8, 4, 0x5, 0x2, 0x7);
    XorLow(0x45, 0x82, 8, 0x6, 0xf, 0x9);
    XorLow(0x456, 0x82f, 12, 0xc, 0x6, 0xa);
    XorLow(0x456c, 0x82f6, 16, 0xa, 0x3, 0x9);
    XorLow(0x456ca, 0x82f63, 20, 0xc, 0xb, 0x7);
    XorLow(0x456cac, 0x82f63b, 24, 0x6, 0x7, 0x1);
    XorLow(0x456cac6, 0x82f63b7, 28, 0x7, 0x8, 0xf);
  }

  lemma OddStep2()
    ensures ShiftOne(0xc79a971f) == 0xe13b70f7
  {
    XorNothing();
    hide Xor;
    XorLow(0, 0, 0, 0x6, 0x8, 0xe);
    XorLow(0x6, 0x8, 4, 0x3, 0x2, 0x1);
    XorLow(0x63, 0x82, 8, 0xc, 0xf, 0x3);
    XorLow(0x63c, 0x82f, 12, 0xd, 0x6, 0xb);
    XorLow(0x63cd, 0x82f6, 16, 0x4, 0x3, 0x7);
    XorLow(0x63cd4, 0x82f63, 20, 0xb, 0xb, 0x0);
    XorLow(0x63cd4b, 0x82f63b, 24, 0x8, 0x7, 0xf);
    XorLow(0x63cd4b8, 0x82f63b7, 28, 0xf, 0x8, 0x7);
  }

  lemma OddStep1()
    ensures ShiftOne(0xe13b70f7) == 0xf26b8303
  {
    XorNothing();
    hide Xor;
    XorLow(0, 0, 0, 0x7, 0x8, 0xf);
    XorLow(0x7, 0x8, 4, 0x0, 0x2, 0x2);
    XorLow(0x70, 0x82, 8, 0x9, 0xf, 0x6);
    XorLow(0x709, 0x82f, 12, 0xd, 0x6, 0xb);
    XorLow(0x709d, 0x82f6, 16, 0xb, 0x3, 0x8);
    XorLow(0x709db, 0x82f63, 20, 0x8, 0xb, 0x3);
    XorLow(0x709db8, 0x82f63b, 24, 0x7, 0x7, 0x0);
    XorLow(0x709db87, 0x82f63b7, 28, 0xb, 0x8, 0x3);
  }

  lemma XorNothing()
    ensures Xor(0, 0, 0) == 0
  {
  }

  /** The entries for single bits, as the code lists them. */
  lemma ByteTableEntries()
    ensures ByteTable(128) == 0x82f63b78 && ByteTable(64) == 0x417b1dbc && ByteTable(32) == 0x20bd8ede && ByteTable(16) == 0x105ec76f
    ensures ByteTable(8) == 0x8ad958cf && ByteTable(4) == 0xc79a971f && ByteTable(2) == 0xe13b70f7 && ByteTable(1) == 0xf26b8303
  {
    hide *;
    TopEntry();
    EvenSteps();
    OddStep8();
    OddStep4();
    OddStep2();
    OddStep1();
    HalfEntry(128, 64);
    HalfEntry(64, 32);
    HalfEntry(32, 16);
    HalfEntry(16, 8);
    HalfEntry(8, 4);
    HalfEntry(4, 2);
    HalfEntry(2, 1);
  }

  lemma EvenSteps()
    ensures ShiftOne(0x82f63b78) == 0x417b1dbc && ShiftOne(0x417b1dbc) == 0x20bd8ede && ShiftOne(0x20bd8ede) == 0x105ec76f
  {
    hide XorWord;
  }

  lemma TopEntry()
    ensures ByteTable(128) == 0x82f63b78
  {
    assert Power2(7) == 128;
    hide *;
    ShiftEnds(128, 128);
    ShiftEnds(1, 1);
    ShiftOut(1, 7);
    ShiftAdds(128, 7, 1);
    ShiftOneUnfold(1, 0);
    WordZero(POLYNOMIAL);
    Polynomial();
  }

  lemma Polynomial()
    ensures POLYNOMIAL == 0x82f63b78
  {
  }

  /** What one byte does to an empty register, and two checksums in full. */
  lemma FirstValues(c: Byte)
    ensures StepByte(0, c) == ByteTable(c)
    ensures Value([]) == 0 && Value([0xff]) == 0xff00_0000
  {
    ValueSteps([]);
    ValueSteps([0xff]);
    assert Step(0xffff_ffff, [0xff]) == Step(StepByte(0xffff_ffff, 0xff), []);
    hide *;
    WordZero(c);
    ByTable(0, c, c);
    ByTable(0xffff_ffff, 0xff, c);
    WordCommutes(0xffff_ffff, 0xff);
    Ones(0xff);
    ComplementIs(0xff);
    HighOut(0xff_ffff, 0xffff_ff00);
    NoSteps();
  }

  lemma ComplementIs(x: Word)
    ensures Complement(x) == 0xffff_ffff - x
  {
  }

  lemma NoSteps()
    ensures forall l: Word :: Step(l, []) == l
  {
  }

  /** The other entries follow: the table is linear. */
  lemma EntriesAdd(c: Byte, d: Byte, e: Byte)
    requires e == XorWord(c, d)
    ensures ByteTable(e) == XorWord(ByteTable(c), ByteTable(d))
  {
    hide XorWord, Shift;
    ShiftLinear(c, d, 8);
  }
}
