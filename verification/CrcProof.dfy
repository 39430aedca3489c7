/** What the checksum detects: the register is linear and loses nothing, so a change within four
    consecutive bytes always shows. */
module CrcProof {
  import opened Crc32c

  // ---------------------------------------------------------------- exclusive or

  lemma {:induction false} XorCommutes(a: nat, b: nat, bits: nat)
    ensures Xor(a, b, bits) == Xor(b, a, bits)
    decreases bits
  {
    if bits > 0 { XorCommutes(a / 2, b / 2, bits - 1); }
  }

  lemma XorParts(a: nat, b: nat, bits: nat)
    requires bits > 0
    ensures Xor(a, b, bits) / 2 == Xor(a / 2, b / 2, bits - 1)
    ensures Xor(a, b, bits) % 2 == if a % 2 == b % 2 then 0 else 1
  {
  }

  lemma {:induction false} XorAssociates(a: nat, b: nat, c: nat, bits: nat)
    ensures Xor(Xor(a, b, bits), c, bits) == Xor(a, Xor(b, c, bits), bits)
    decreases bits
  {
    if bits > 0 {
      XorParts(a, b, bits);
      XorParts(b, c, bits);
      XorAssociates(a / 2, b / 2, c / 2, bits - 1);
    }
  }

  lemma {:induction false} XorZero(a: nat, bits: nat)
    requires a < Power2(bits)
    ensures Xor(a, 0, bits) == a && Xor(a, a, bits) == 0
    decreases bits
  {
    if bits > 0 { XorZero(a / 2, bits - 1); }
  }

  /** Bits above both operands do not matter. */
  lemma {:induction false} XorMore(a: nat, b: nat, bits: nat)
    requires a < Power2(bits) && b < Power2(bits)
    ensures Xor(a, b, bits + 1) == Xor(a, b, bits)
    decreases bits
  {
    if bits > 0 { XorMore(a / 2, b / 2, bits - 1); }
  }

  /** Without a common bit, exclusive or is addition. */
  lemma {:induction false} XorDisjoint(a: nat, b: nat, k: nat, bits: nat)
    requires a < Power2(k) && k <= bits && a + b * Power2(k) < Power2(bits)
    ensures Xor(a, b * Power2(k), bits) == a + b * Power2(k)
    decreases k
  {
    if k == 0 {
      XorCommutes(a, b, bits);
      XorZero(b, bits);
    } else {
      hide *;
      PowerHalf(b, k);
      PowerHalf(1, bits);
      XorDisjoint(a / 2, b, k - 1, bits - 1);
      XorDoubled(a, b * Power2(k - 1), bits);
    }
  }

  lemma PowerHalf(b: nat, k: nat)
    requires k > 0
    ensures Power2(k) == 2 * Power2(k - 1) && b * Power2(k) == 2 * (b * Power2(k - 1))
  {
  }

  lemma XorDoubled(a: nat, c: nat, bits: nat)
    requires bits > 0 && Xor(a / 2, c, bits - 1) == a / 2 + c
    ensures Xor(a, 2 * c, bits) == a + 2 * c
  {
    assert 2 * c / 2 == c && 2 * c % 2 == 0;
  }

  // ---------------------------------------------------------------- words

  lemma WordCommutes(a: Word, b: Word)
    ensures XorWord(a, b) == XorWord(b, a)
  {
    XorCommutes(a, b, 32);
  }

  lemma WordAssociates(a: Word, b: Word, c: Word)
    ensures XorWord(XorWord(a, b), c) == XorWord(a, XorWord(b, c))
  {
    XorAssociates(a, b, c, 32);
  }

  lemma WordZero(a: Word)
    ensures XorWord(a, 0) == a && XorWord(0, a) == a && XorWord(a, a) == 0
  {
    Power32();
    XorZero(a, 32);
    XorCommutes(a, 0, 32);
  }

  /** Exclusive or with a fixed word can be undone. */
  lemma WordCancels(a: Word, b: Word, c: Word)
    requires XorWord(a, c) == XorWord(b, c)
    ensures a == b
  {
    hide *;
    WordAssociates(a, c, c);
    WordAssociates(b, c, c);
    WordZero(a);
    WordZero(b);
    WordZero(c);
  }

  lemma WordHalf(a: Word, b: Word)
    ensures XorWord(a, b) / 2 == XorWord(a / 2, b / 2)
    ensures XorWord(a, b) % 2 == if a % 2 == b % 2 then 0 else 1
  {
    Power32();
    XorParts(a, b, 32);
    XorMore(a / 2, b / 2, 31);
  }

  /** (a ^ c) ^ (b ^ d) == (a ^ b) ^ (c ^ d) */
  lemma WordSwap(a: Word, b: Word, c: Word, d: Word)
    ensures XorWord(XorWord(a, c), XorWord(b, d)) == XorWord(XorWord(a, b), XorWord(c, d))
  {
    hide *;
    WordAssociates(a, c, XorWord(b, d));
    WordAssociates(c, b, d);
    WordCommutes(c, b);
    WordAssociates(b, c, d);
    WordAssociates(a, b, XorWord(c, d));
  }

  // ---------------------------------------------------------------- the register is linear

  /** The polynomial, added to both operands, to one or to the other. */
  lemma WordAdd(x: Word, y: Word, p: Word)
    ensures XorWord(XorWord(x, p), XorWord(y, p)) == XorWord(x, y)
    ensures XorWord(XorWord(x, p), y) == XorWord(XorWord(x, y), p)
    ensures XorWord(x, XorWord(y, p)) == XorWord(XorWord(x, y), p)
  {
    hide *;
    WordSwap(x, y, p, p);
    WordZero(p);
    WordZero(XorWord(x, y));
    WordAssociates(x, p, y);
    WordCommutes(p, y);
    WordAssociates(x, y, p);
  }

  lemma ShiftOneUnfold(l: Word, half: Word)
    requires half == l / 2
    ensures ShiftOne(l) == if l % 2 == 1 then XorWord(half, POLYNOMIAL) else half
  {
    hide XorWord;
  }

  lemma ShiftOneLinear(a: Word, b: Word)
    ensures ShiftOne(XorWord(a, b)) == XorWord(ShiftOne(a), ShiftOne(b))
  {
    hide *;
    var h: Word, k: Word := a / 2, b / 2;
    WordHalf(a, b);
    ShiftOneUnfold(a, h);
    ShiftOneUnfold(b, k);
    ShiftOneUnfold(XorWord(a, b), XorWord(h, k));
    WordAdd(h, k, POLYNOMIAL);
  }

  lemma {:induction false} ShiftLinear(a: Word, b: Word, n: nat)
    ensures Shift(XorWord(a, b), n) == XorWord(Shift(a, n), Shift(b, n))
    decreases n
  {
    hide XorWord, ShiftOne;
    if n > 0 {
      ShiftOneLinear(a, b);
      ShiftLinear(ShiftOne(a), ShiftOne(b), n - 1);
    }
  }

  lemma {:induction false} ShiftAdds(l: Word, m: nat, n: nat)
    ensures Shift(Shift(l, m), n) == Shift(l, m + n)
    decreases m
  {
    hide ShiftOne;
    if m > 0 { ShiftAdds(ShiftOne(l), m - 1, n); }
  }

  /** Zero bits are simply shifted out. */
  lemma {:induction false} ShiftOut(l: nat, n: nat)
    requires l * Power2(n) < 0x1_0000_0000
    ensures l < 0x1_0000_0000 && Shift(l * Power2(n), n) == l
    decreases n
  {
    hide XorWord;
    if n > 0 {
      var c := l * Power2(n - 1);
      assert l * Power2(n) == 2 * c;
      ShiftOut(l, n - 1);
    }
  }

  // ---------------------------------------------------------------- nothing is lost

  lemma ShiftOneKernel(x: Word)
    requires ShiftOne(x) == 0
    ensures x == 0
  {
    hide XorWord;
    if x % 2 == 1 {
      WordZero(POLYNOMIAL);
      WordCancels(x / 2, POLYNOMIAL, POLYNOMIAL);
    }
  }

  lemma ShiftOneInjective(a: Word, b: Word)
    requires ShiftOne(a) == ShiftOne(b)
    ensures a == b
  {
    hide *;
    ShiftOneLinear(a, b);
    WordZero(ShiftOne(b));
    ShiftOneKernel(XorWord(a, b));
    WordZero(b);
    WordCancels(a, b, b);
  }

  lemma {:induction false} ShiftInjective(a: Word, b: Word, n: nat)
    requires Shift(a, n) == Shift(b, n)
    ensures a == b
    decreases n
  {
    hide ShiftOne;
    if n > 0 {
      ShiftInjective(ShiftOne(a), ShiftOne(b), n - 1);
      ShiftOneInjective(a, b);
    }
  }

  /** One byte of data moves different registers to different registers, and from one register
      different bytes lead to different registers. */
  lemma StepByteInjective(l: Word, m: Word, b: Byte, c: Byte)
    ensures StepByte(l, b) == StepByte(m, b) ==> l == m
    ensures StepByte(l, b) == StepByte(l, c) ==> b == c
  {
    hide XorWord, Shift;
    if StepByte(l, b) == StepByte(m, b) {
      ShiftInjective(XorWord(l, b), XorWord(m, b), 8);
      WordCancels(l, m, b);
    }
    if StepByte(l, b) == StepByte(l, c) {
      ShiftInjective(XorWord(l, b), XorWord(l, c), 8);
      WordCommutes(l, b);
      WordCommutes(l, c);
      WordCancels(b, c, l);
    }
  }

  lemma {:induction false} StepInjective(l: Word, m: Word, data: seq<Byte>)
    requires Step(l, data) == Step(m, data)
    ensures l == m
    decreases |data|
  {
    hide StepByte;
    if data != [] {
      StepInjective(StepByte(l, data[0]), StepByte(m, data[0]), data[1..]);
      StepByteInjective(l, m, data[0], data[0]);
    }
  }

  // ---------------------------------------------------------------- four bytes at a time

  lemma Powers()
    ensures Power2(8) == 0x100 && Power2(16) == 0x1_0000 && Power2(24) == 0x100_0000
    ensures Power2(32) == 0x1_0000_0000
  {
    Power32();
    assert Power2(8) == 256 && Power2(12) == 4096 && Power2(16) == 65536 && Power2(20) == 0x10_0000;
  }

  /** A byte still to come can be added before the register is shifted. */
  lemma StepAhead(l: Word, n: nat, b: Byte, ahead: Word)
    requires Shift(ahead, n) == b
    ensures StepByte(Shift(l, n), b) == Shift(XorWord(l, ahead), n + 8)
  {
    assert StepByte(Shift(l, n), b) == Shift(XorWord(Shift(l, n), b), 8);
    hide *;
    ShiftLinear(l, ahead, n);
    ShiftAdds(XorWord(l, ahead), n, 8);
  }

  function WordOf(b: seq<Byte>): Word
    requires |b| == 4
  {
    DecodeFixed32(b)
  }

  lemma WordOfXor(b: seq<Byte>)
    requires |b| == 4
    ensures var c: Word, d: Word, e: Word := (b[1] as int) * 0x100, (b[2] as int) * 0x1_0000, (b[3] as int) * 0x100_0000;
            WordOf(b) == XorWord(XorWord(XorWord(b[0], c), d), e)
  {
    var b1, b2, b3 := b[1] as int, b[2] as int, b[3] as int;
    WordSum(b[0], b1, 8, 0x100);
    WordSum(b[0] + b1 * 0x100, b2, 16, 0x1_0000);
    WordSum(b[0] + b1 * 0x100 + b2 * 0x1_0000, b3, 24, 0x100_0000);
    hide XorWord;
  }

  lemma WordSum(low: Word, high: nat, k: nat, unit: nat)
    requires (k == 8 && unit == 0x100) || (k == 16 && unit == 0x1_0000) || (k == 24 && unit == 0x100_0000)
    requires low < unit && low + high * unit < 0x1_0000_0000
    ensures XorWord(low, high * unit) == low + high * unit
  {
    Powers();
    hide Power2, Xor;
    XorDisjoint(low, high, k, 32);
  }

  lemma BytesAhead(b: Byte)
    ensures Shift((b as int) * 0x100, 8) == b && Shift((b as int) * 0x1_0000, 16) == b && Shift((b as int) * 0x100_0000, 24) == b
  {
    Powers();
    hide Shift;
    ShiftOut(b, 8);
    ShiftOut(b, 16);
    ShiftOut(b, 24);
  }

  lemma StepUnfold(l: Word, b: seq<Byte>)
    requires |b| == 4
    ensures Step(l, b) == StepByte(StepByte(StepByte(StepByte(l, b[0]), b[1]), b[2]), b[3])
  {
    hide StepByte;
    var l2 := StepByte(StepByte(l, b[0]), b[1]);
    assert b[1..][1..] == b[2..] && b[2..][1..] == b[3..] && b[3..][1..] == [];
    var l3 := StepByte(l2, b[2]);
    assert Step(l, b) == Step(StepByte(l, b[0]), b[1..]);
    assert Step(StepByte(l, b[0]), b[1..]) == Step(l2, b[2..]);
    assert Step(l2, b[2..]) == Step(l3, b[3..]);
    assert Step(l3, b[3..]) == Step(StepByte(l3, b[3]), []);
  }

  lemma StepAheads(l: Word, b: seq<Byte>, c: Word, d: Word, e: Word)
    requires |b| == 4 && Shift(c, 8) == b[1] && Shift(d, 16) == b[2] && Shift(e, 24) == b[3]
    ensures Step(l, b) == Shift(XorWord(XorWord(XorWord(XorWord(l, b[0]), c), d), e), 32)
  {
    assert StepByte(l, b[0]) == Shift(XorWord(l, b[0]), 8);
    hide *;
    StepUnfold(l, b);
    var l1 := XorWord(l, b[0]);
    StepAhead(l1, 8, b[1], c);
    StepAhead(XorWord(l1, c), 16, b[2], d);
    StepAhead(XorWord(XorWord(l1, c), d), 24, b[3], e);
  }

  lemma WordAssociates5(l: Word, a: Word, b: Word, c: Word, d: Word)
    ensures XorWord(XorWord(XorWord(XorWord(l, a), b), c), d) == XorWord(l, XorWord(XorWord(XorWord(a, b), c), d))
  {
    hide *;
    WordAssociates(l, a, b);
    WordAssociates(l, XorWord(a, b), c);
    WordAssociates(l, XorWord(XorWord(a, b), c), d);
  }

  /** Four bytes at once: the word is added to the register, which is then shifted 32 times. */
  lemma StepWord(l: Word, b: seq<Byte>)
    requires |b| == 4
    ensures Step(l, b) == Shift(XorWord(l, WordOf(b)), 32)
  {
    hide *;
    var c: Word, d: Word, e: Word := (b[1] as int) * 0x100, (b[2] as int) * 0x1_0000, (b[3] as int) * 0x100_0000;
    BytesAhead(b[1]);
    BytesAhead(b[2]);
    BytesAhead(b[3]);
    StepAheads(l, b, c, d, e);
    WordOfXor(b);
    WordAssociates5(l, b[0], c, d, e);
  }

  lemma WordOfInjective(a: seq<Byte>, b: seq<Byte>)
    requires |a| == |b| == 4 && WordOf(a) == WordOf(b)
    ensures a == b
  {
    var p, q := a[2] as int + (a[3] as int) * 0x100, b[2] as int + (b[3] as int) * 0x100;
    var m, n := a[1] as int + p * 0x100, b[1] as int + q * 0x100;
    assert a[0] as int + m * 0x100 == b[0] as int + n * 0x100;
    LowestByte(a[0], m, b[0], n);
    LowestByte(a[1], p, b[1], q);
    LowestByte(a[2], a[3] as int, b[2], b[3] as int);
  }

  lemma LowestByte(a: Byte, m: int, b: Byte, n: int)
    requires a as int + m * 0x100 == b as int + n * 0x100
    ensures a == b && m == n
  {
  }

  /** From one register, different strings of up to four bytes lead to different registers. */
  lemma {:induction false} ShortInjective(l: Word, a: seq<Byte>, b: seq<Byte>)
    requires |a| == |b| <= 4 && Step(l, a) == Step(l, b)
    ensures a == b
    decreases 4 - |a|
  {
    hide *;
    if |a| == 4 {
      StepWord(l, a);
      StepWord(l, b);
      var v, w := WordOf(a), WordOf(b);
      ShiftInjective(XorWord(l, v), XorWord(l, w), 32);
      WordCommutes(l, v);
      WordCommutes(l, w);
      WordCancels(v, w, l);
      WordOfInjective(a, b);
    } else {
      StepConcat(l, a, [0]);
      StepConcat(l, b, [0]);
      ShortInjective(l, a + [0], b + [0]);
      assert a == (a + [0])[..|a|] && b == (b + [0])[..|b|];
    }
  }

  /** A change confined to four consecutive bytes, anywhere in the data, changes the checksum. */
  lemma BurstDetected(before: seq<Byte>, a: seq<Byte>, b: seq<Byte>, after: seq<Byte>)
    requires |a| == |b| <= 4 && a != b
    ensures Value(before + a + after) != Value(before + b + after)
  {
    ValueSteps(before + a + after);
    ValueSteps(before + b + after);
    hide *;
    var l: Word := 0xffff_ffff;
    StepConcat(l, before, a);
    StepConcat(l, before, b);
    StepConcat(l, before + a, after);
    StepConcat(l, before + b, after);
    if Step(l, before + a + after) == Step(l, before + b + after) {
      StepInjective(Step(l, before + a), Step(l, before + b), after);
      ShortInjective(Step(l, before), a, b);
    }
  }

  lemma ValueSteps(data: seq<Byte>)
    ensures Value(data) == 0xffff_ffff - Step(0xffff_ffff, data)
  {
    hide Step;
  }

  lemma OneByteDetected(data: seq<Byte>, i: nat, b: Byte)
    requires i < |data| && data[i] != b
    ensures Value(data[i := b]) != Value(data)
  {
    hide Value;
    BurstDetected(data[..i], [data[i]], [b], data[i + 1..]);
    assert data[..i] + [data[i]] + data[i + 1..] == data;
    assert data[..i] + [b] + data[i + 1..] == data[i := b];
  }
}
