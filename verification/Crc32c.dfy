/** Checksums as the log uses them: one byte at a time, extendable, and masked for storage. */
module Crc32c {

  type Byte = x: int | 0 <= x < 256
  type Word = x: int | 0 <= x < 0x1_0000_0000

  const MASK_DELTA: Word := 0xa282ead8
  const POLYNOMIAL: Word := 0x82f63b78

  /** Exclusive or of the lowest `bits` bits. */
  function Xor(a: nat, b: nat, bits: nat): (r: nat)
    decreases bits
  {
    if bits == 0 then 0
    else 2 * Xor(a / 2, b / 2, bits - 1) + if a % 2 == b % 2 then 0 else 1
  }

  lemma {:induction false} XorBound(a: nat, b: nat, bits: nat, limit: nat)
    requires limit == Power2(bits)
    ensures Xor(a, b, bits) < limit
    decreases bits
  {
    if bits > 0 {
      XorBound(a / 2, b / 2, bits - 1, Power2(bits - 1));
    }
  }

  function Power2(n: nat): nat {
    if n == 0 then 1 else 2 * Power2(n - 1)
  }

  lemma Power32()
    ensures Power2(32) == 0x1_0000_0000
  {
    assert Power2(4) == 16 && Power2(8) == 256;
    assert Power2(12) == 4096 && Power2(16) == 65536 && Power2(20) == 0x10_0000;
    assert Power2(24) == 0x100_0000 && Power2(28) == 0x1000_0000;
  }

  function XorWord(a: Word, b: Word): Word {
    Power32();
    XorBound(a, b, 32, Power2(32));
    Xor(a, b, 32)
  }

  /** One step of the shift register: divides by x modulo the polynomial. */
  function ShiftOne(l: Word): Word {
    if l % 2 == 1 then XorWord(l / 2, POLYNOMIAL) else l / 2
  }

  function Shift(l: Word, n: nat): Word
    decreases n
  {
    if n == 0 then l else Shift(ShiftOne(l), n - 1)
  }

  function StepByte(l: Word, b: Byte): Word {
    Shift(XorWord(l, b), 8)
  }

  function Step(l: Word, data: seq<Byte>): Word
    decreases |data|
  {
    if data == [] then l else Step(StepByte(l, data[0]), data[1..])
  }

  /** Exclusive or with all ones is the complement. */
  function Complement(x: Word): Word {
    0xffff_ffff - x
  }

  function Extend(crc: Word, data: seq<Byte>): Word {
    Complement(Step(Complement(crc), data))
  }

  function Value(data: seq<Byte>): Word {
    Extend(0, data)
  }

  lemma {:induction false} StepConcat(l: Word, a: seq<Byte>, b: seq<Byte>)
    ensures Step(l, a + b) == Step(Step(l, a), b)
    decreases |a|
  {
    hide StepByte;
    if a == [] {
      assert a + b == b;
    } else {
      assert (a + b)[0] == a[0] && (a + b)[1..] == a[1..] + b;
      StepConcat(StepByte(l, a[0]), a[1..], b);
    }
  }

  /** Extending the checksum of `a` by `b` gives the checksum of the concatenation. */
  lemma ExtendConcat(crc: Word, a: seq<Byte>, b: seq<Byte>)
    ensures Extend(Extend(crc, a), b) == Extend(crc, a + b)
  {
    hide Step;
    StepConcat(Complement(crc), a, b);
  }

  /** Rotate right by 15 bits and add a constant, modulo 2^32. */
  function Mask(crc: Word): Word {
    (crc / 0x8000 + (crc % 0x8000) * 0x2_0000 + MASK_DELTA) % 0x1_0000_0000
  }

  function Unmask(masked: Word): Word {
    var rot := (masked - MASK_DELTA) % 0x1_0000_0000;
    rot / 0x2_0000 + (rot % 0x2_0000) * 0x8000
  }

  lemma UnmaskMask(crc: Word)
    ensures Unmask(Mask(crc)) == crc
  {
    var hi, lo := crc / 0x8000, crc % 0x8000;
    var rot := hi + lo * 0x2_0000;
    assert 0 <= rot < 0x1_0000_0000;
    assert (Mask(crc) - MASK_DELTA) % 0x1_0000_0000 == rot;
    assert rot / 0x2_0000 == lo && rot % 0x2_0000 == hi;
  }

  lemma MaskUnmask(m: Word)
    ensures Mask(Unmask(m)) == m
  {
    var rot := (m - MASK_DELTA) % 0x1_0000_0000;
    var lo, hi := rot / 0x2_0000, rot % 0x2_0000;
    assert 0 <= lo < 0x8000 && 0 <= hi < 0x2_0000;
    assert Unmask(m) / 0x8000 == hi && Unmask(m) % 0x8000 == lo;
  }

  /** The rotation and the constant. */
  lemma MaskValues()
    ensures Mask(0) == 0xa282ead8 && Mask(0x8000) == 0xa282ead9 && Mask(1) == 0xa284ead8 && Mask(0x7fff_ffff) == 0xa281ead7
  {
  }

  function LowByte(x: nat): Byte {
    x % 256
  }

  function EncodeFixed32(x: Word): (r: seq<Byte>)
    ensures |r| == 4
  {
    [LowByte(x), LowByte(x / 0x100), LowByte(x / 0x1_0000), LowByte(x / 0x100_0000)]
  }

  function DecodeFixed32(b: seq<Byte>): Word
    requires |b| == 4
  {
    (b[0] as int) + (b[1] as int) * 0x100 + (b[2] as int) * 0x1_0000 + (b[3] as int) * 0x100_0000
  }

  lemma DecodeEncodeFixed32(x: Word)
    ensures DecodeFixed32(EncodeFixed32(x)) == x
  {
    var a, b, c := x / 0x100, x / 0x1_0000, x / 0x100_0000;
    assert b == a / 256 && c == b / 256 && LowByte(c) == c;
    assert x == 256 * a + LowByte(x) && a == 256 * b + LowByte(a) && b == 256 * c + LowByte(b);
  }
}
