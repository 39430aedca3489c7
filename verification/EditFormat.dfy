/** The encoding of version edits: varints, length-prefixed strings and tagged fields, and the decoder
    for arbitrary bytes. Keys are the byte strings the code stores. */
module EditFormat {
  import opened Optional
  import opened Crc32c
  import opened Versions
  import opened LogFormat
  import opened LogReader
  import opened TornLog

  // ---------------------------------------------------------------- varints

  const LIMIT32: nat := 0x1_0000_0000
  const LIMIT64: nat := 0x1_0000_0000_0000_0000

  /** `EncodeVarint32` and `EncodeVarint64` write the same bytes. */
  function PutVarint(v: nat): (r: seq<Byte>)
    ensures r != []
  {
    if v < 128 then [v] else [v % 128 + 128] + PutVarint(v / 128)
  }

  function Scale(k: nat): (r: nat)
    ensures r > 0
  {
    if k == 0 then 1 else 128 * Scale(k - 1)
  }

  function Digits(limit: nat): nat {
    if limit == LIMIT32 then 5 else 10
  }

  function Times(a: nat, b: nat): nat {
    a * b
  }

  /** The low bits that fit a width of `limit`. */
  function Truncated(x: nat, limit: nat): (r: nat)
    requires limit > 0
    ensures r < limit && (x < limit ==> r == x)
  {
    x % limit
  }

  /** `GetVarint32Ptr` and `GetVarint64Ptr`: at most 5 or 10 bytes; bits beyond the width are lost. */
  function GetVarint(input: seq<Byte>, limit: nat, k: nat, acc: nat): (r: Option<(nat, seq<Byte>)>)
    requires limit > 0
    ensures r.Some? ==> |r.value.1| < |input| && r.value.0 < limit
    decreases |input|
  {
    if k >= Digits(limit) || input == [] then None
    else if input[0] >= 128 then GetVarint(input[1..], limit, k + 1, Truncated(acc + Times(input[0] - 128, Scale(k)), limit))
    else Some((Truncated(acc + Times(input[0], Scale(k)), limit), input[1..]))
  }

  lemma ScaleValues()
    ensures Scale(5) == 0x8_0000_0000 && Scale(10) == 0x8_0000_0000 * 0x8_0000_0000
  {
    assert Scale(2) == 16384;
    assert Scale(5) == 128 * (128 * (128 * Scale(2)));
    assert Scale(7) == 128 * (128 * Scale(5));
    assert Scale(10) == 128 * (128 * (128 * Scale(7)));
  }

  lemma ScaleBounds(k: nat, limit: nat)
    requires (limit == LIMIT32 || limit == LIMIT64) && Scale(k) < limit
    ensures k < Digits(limit)
  {
    ScaleValues();
    if k >= Digits(limit) { ScaleGrows(Digits(limit), k); }
  }

  lemma {:induction false} ScaleGrows(j: nat, k: nat)
    requires j <= k
    ensures Scale(j) <= Scale(k)
  {
    if j < k { ScaleGrows(j, k - 1); }
  }

  lemma TimesStep(v: nat, k: nat)
    ensures Times(v % 128, Scale(k)) + Times(v / 128, Scale(k + 1)) == Times(v, Scale(k))
  {
    var q, m, s := v / 128, v % 128, Scale(k);
    assert v == 128 * q + m;
    assert m * s + q * (128 * s) == (128 * q + m) * s;
  }

  lemma TimesAtLeast(v: nat, s: nat)
    requires v >= 1
    ensures Times(v, s) >= s
  {
  }

  /** Every number within the width is read back, whatever follows. */
  lemma {:induction false} VarintRoundTrip(v: nat, limit: nat, k: nat, acc: nat, rest: seq<Byte>)
    requires (limit == LIMIT32 || limit == LIMIT64) && acc + Times(v, Scale(k)) < limit && (k == 0 || v >= 1)
    ensures GetVarint(PutVarint(v) + rest, limit, k, acc) == Some((acc + Times(v, Scale(k)), rest))
    decreases v
  {
    hide *;
    EnoughDigits(v, limit, k);
    PutUnfold(v, rest);
    var input := PutVarint(v) + rest;
    if v < 128 {
      GetLastByte(input, limit, k, acc);
    } else {
      var q, m := v / 128, v % 128;
      TimesStep(v, k);
      GetMoreBytes(input, limit, k, acc);
      VarintRoundTrip(q, limit, k + 1, acc + Times(m, Scale(k)), rest);
    }
  }

  lemma EnoughDigits(v: nat, limit: nat, k: nat)
    requires (limit == LIMIT32 || limit == LIMIT64) && Times(v, Scale(k)) < limit && (k == 0 || v >= 1)
    ensures k < Digits(limit) && limit > 0
  {
    if k > 0 { TimesAtLeast(v, Scale(k)); ScaleBounds(k, limit); }
  }

  lemma PutUnfold(v: nat, rest: seq<Byte>)
    ensures var input := PutVarint(v) + rest;
            && input != []
            && (v < 128 ==> input[0] == v && input[1..] == rest)
            && (v >= 128 ==> input[0] == v % 128 + 128 && input[1..] == PutVarint(v / 128) + rest)
  {
  }

  lemma GetLastByte(input: seq<Byte>, limit: nat, k: nat, acc: nat)
    requires limit > 0 && k < Digits(limit) && input != [] && input[0] < 128 && acc + Times(input[0], Scale(k)) < limit
    ensures GetVarint(input, limit, k, acc) == Some((acc + Times(input[0], Scale(k)), input[1..]))
  {
    hide Times, Scale;
  }

  lemma GetMoreBytes(input: seq<Byte>, limit: nat, k: nat, acc: nat)
    requires limit > 0 && k < Digits(limit) && input != [] && input[0] >= 128 && acc + Times(input[0] - 128, Scale(k)) < limit
    ensures GetVarint(input, limit, k, acc) == GetVarint(input[1..], limit, k + 1, acc + Times(input[0] - 128, Scale(k)))
  {
    hide Times, Scale;
  }

  /** The number at the front of the input, in a width of 32 or 64 bits. */
  function Get(input: seq<Byte>, limit: nat): (r: Option<(nat, seq<Byte>)>)
    requires limit > 0
    ensures r.Some? ==> |r.value.1| < |input| && r.value.0 < limit
  {
    GetVarint(input, limit, 0, 0)
  }

  lemma GetPut(v: nat, limit: nat, rest: seq<Byte>)
    requires (limit == LIMIT32 || limit == LIMIT64) && v < limit
    ensures Get(PutVarint(v) + rest, limit) == Some((v, rest))
  {
    assert Times(v, Scale(0)) == v;
    VarintRoundTrip(v, limit, 0, 0, rest);
  }

  // ---------------------------------------------------------------- strings and levels

  function PutSlice(s: seq<Byte>): seq<Byte> {
    PutVarint(|s|) + s
  }

  function GetSlice(input: seq<Byte>): (r: Option<(seq<Byte>, seq<Byte>)>)
    ensures r.Some? ==> |r.value.1| < |input|
  {
    match Get(input, LIMIT32)
    case None => None
    case Some((n, rest)) => if n <= |rest| then Some((rest[..n], rest[n..])) else None
  }

  lemma GetPutSlice(s: seq<Byte>, rest: seq<Byte>)
    requires |s| < LIMIT32
    ensures GetSlice(PutSlice(s) + rest) == Some((s, rest))
  {
    assert PutSlice(s) + rest == PutVarint(|s|) + (s + rest);
    GetPut(|s|, LIMIT32, s + rest);
    assert (s + rest)[..|s|] == s && (s + rest)[|s|..] == rest;
  }

  function GetLevel(input: seq<Byte>): (r: Option<(nat, seq<Byte>)>)
    ensures r.Some? ==> |r.value.1| < |input| && r.value.0 < NUM_LEVELS
  {
    match Get(input, LIMIT32)
    case None => None
    case Some((v, rest)) => if v < NUM_LEVELS then Some((v, rest)) else None
  }

  // ---------------------------------------------------------------- fields

  /** One tagged field of an encoded edit. */
  datatype Item =
    | Comparator(name: seq<Byte>)
    | Number(tag: nat, value: nat)
    | Pointer(level: nat, key: seq<Byte>)
    | Deleted(level: nat, number: nat)
    | NewFile(level: nat, number: nat, size: nat, smallest: seq<Byte>, largest: seq<Byte>)

  const LOG_NUMBER: nat := 2
  const NEXT_FILE: nat := 3
  const LAST_SEQUENCE: nat := 4
  const PREV_LOG: nat := 9

  predicate IsNumberTag(tag: nat) {
    tag == LOG_NUMBER || tag == NEXT_FILE || tag == LAST_SEQUENCE || tag == PREV_LOG
  }

  predicate ItemOk(i: Item) {
    match i
    case Comparator(name) => |name| < LIMIT32
    case Number(tag, value) => IsNumberTag(tag) && value < LIMIT64
    case Pointer(level, key) => level < NUM_LEVELS && |key| < LIMIT32
    case Deleted(level, number) => level < NUM_LEVELS && number < LIMIT64
    case NewFile(level, number, size, smallest, largest) =>
      level < NUM_LEVELS && number < LIMIT64 && size < LIMIT64 && |smallest| < LIMIT32 && |largest| < LIMIT32
  }

  function PutItem(i: Item): seq<Byte> {
    match i
    case Comparator(name) => PutVarint(1) + PutSlice(name)
    case Number(tag, value) => PutVarint(tag) + PutVarint(value)
    case Pointer(level, key) => PutVarint(5) + PutVarint(level) + PutSlice(key)
    case Deleted(level, number) => PutVarint(6) + PutVarint(level) + PutVarint(number)
    case NewFile(level, number, size, smallest, largest) =>
      PutVarint(7) + PutVarint(level) + PutVarint(number) + PutVarint(size) + PutSlice(smallest) + PutSlice(largest)
  }

  function GetPointer(input: seq<Byte>): (r: Option<(Item, seq<Byte>)>)
    ensures r.Some? ==> |r.value.1| < |input|
  {
    match GetLevel(input)
    case None => None
    case Some((level, a)) =>
      match GetSlice(a)
      case None => None
      case Some((key, b)) => Some((Pointer(level, key), b))
  }

  function GetDeleted(input: seq<Byte>): (r: Option<(Item, seq<Byte>)>)
    ensures r.Some? ==> |r.value.1| < |input|
  {
    match GetLevel(input)
    case None => None
    case Some((level, a)) =>
      match Get(a, LIMIT64)
      case None => None
      case Some((number, b)) => Some((Deleted(level, number), b))
  }

  function GetNewFile(input: seq<Byte>): (r: Option<(Item, seq<Byte>)>)
    ensures r.Some? ==> |r.value.1| < |input|
  {
    match GetLevel(input)
    case None => None
    case Some((level, a)) =>
      match Get(a, LIMIT64)
      case None => None
      case Some((number, b)) =>
        match Get(b, LIMIT64)
        case None => None
        case Some((size, c)) =>
          match GetSlice(c)
          case None => None
          case Some((smallest, d)) =>
            match GetSlice(d)
            case None => None
            case Some((largest, rest)) => Some((NewFile(level, number, size, smallest, largest), rest))
  }

  /** The field after its tag. An unknown tag fails. */
  function GetField(tag: nat, input: seq<Byte>): (r: Option<(Item, seq<Byte>)>)
    ensures r.Some? ==> |r.value.1| < |input|
  {
    if tag == 1 then
      match GetSlice(input)
      case None => None
      case Some((name, rest)) => Some((Comparator(name), rest))
    else if IsNumberTag(tag) then
      match Get(input, LIMIT64)
      case None => None
      case Some((value, rest)) => Some((Number(tag, value), rest))
    else if tag == 5 then GetPointer(input)
    else if tag == 6 then GetDeleted(input)
    else if tag == 7 then GetNewFile(input)
    else None
  }

  function GetItem(input: seq<Byte>): (r: Option<(Item, seq<Byte>)>)
    ensures r.Some? ==> |r.value.1| < |input|
  {
    match Get(input, LIMIT32)
    case None => None
    case Some((tag, rest)) => GetField(tag, rest)
  }

  lemma GetPutLevel(level: nat, rest: seq<Byte>)
    requires level < NUM_LEVELS
    ensures GetLevel(PutVarint(level) + rest) == Some((level, rest))
  {
    GetPut(level, LIMIT32, rest);
  }

  lemma PointerRoundTrip(level: nat, key: seq<Byte>, rest: seq<Byte>)
    requires ItemOk(Pointer(level, key))
    ensures GetPointer(PutVarint(level) + PutSlice(key) + rest) == Some((Pointer(level, key), rest))
  {
    Concat3(PutVarint(level), PutSlice(key), rest);
    hide PutVarint, PutSlice, GetSlice, GetLevel, Get;
    GetPutLevel(level, PutSlice(key) + rest);
    GetPutSlice(key, rest);
  }

  lemma DeletedRoundTrip(level: nat, number: nat, rest: seq<Byte>)
    requires ItemOk(Deleted(level, number))
    ensures GetDeleted(PutVarint(level) + PutVarint(number) + rest) == Some((Deleted(level, number), rest))
  {
    Concat3(PutVarint(level), PutVarint(number), rest);
    hide PutVarint, GetLevel, Get;
    GetPutLevel(level, PutVarint(number) + rest);
    GetPut(number, LIMIT64, rest);
  }

  lemma NewFileRoundTrip(level: nat, number: nat, size: nat, smallest: seq<Byte>, largest: seq<Byte>, rest: seq<Byte>)
    requires ItemOk(NewFile(level, number, size, smallest, largest))
    ensures GetNewFile(PutVarint(level) + (PutVarint(number) + (PutVarint(size) + (PutSlice(smallest) + (PutSlice(largest) + rest))))) ==
            Some((NewFile(level, number, size, smallest, largest), rest))
  {
    hide PutVarint, PutSlice, GetSlice, GetLevel, Get;
    var e := PutSlice(largest) + rest;
    var d := PutSlice(smallest) + e;
    var c := PutVarint(size) + d;
    GetPutLevel(level, PutVarint(number) + c);
    GetPut(number, LIMIT64, c);
    GetPut(size, LIMIT64, d);
    GetPutSlice(smallest, e);
    GetPutSlice(largest, rest);
  }

  lemma NewFileLayout(a: seq<Byte>, b: seq<Byte>, c: seq<Byte>, d: seq<Byte>, e: seq<Byte>, f: seq<Byte>, rest: seq<Byte>)
    ensures a + b + c + d + e + f + rest == a + (b + (c + (d + (e + (f + rest)))))
  {
    Concat3(a + b + c + d + e, f, rest);
    Concat3(a + b + c + d, e, f + rest);
    Concat3(a + b + c, d, e + (f + rest));
    Concat3(a + b, c, d + (e + (f + rest)));
    Concat3(a, b, c + (d + (e + (f + rest))));
  }

  /** Every well-formed field is read back, whatever follows. */
  lemma ItemRoundTrip(i: Item, rest: seq<Byte>)
    requires ItemOk(i)
    ensures GetItem(PutItem(i) + rest) == Some((i, rest))
  {
    hide PutVarint, PutSlice, GetSlice, GetLevel, Get, GetPointer, GetDeleted, GetNewFile;
    match i {
      case Comparator(name) =>
        Concat3(PutVarint(1), PutSlice(name), rest);
        GetPut(1, LIMIT32, PutSlice(name) + rest);
        GetPutSlice(name, rest);
      case Number(tag, value) =>
        Concat3(PutVarint(tag), PutVarint(value), rest);
        GetPut(tag, LIMIT32, PutVarint(value) + rest);
        GetPut(value, LIMIT64, rest);
      case Pointer(level, key) =>
        Concat3(PutVarint(5), PutVarint(level), PutSlice(key));
        Concat3(PutVarint(5), PutVarint(level) + PutSlice(key), rest);
        GetPut(5, LIMIT32, PutVarint(level) + PutSlice(key) + rest);
        PointerRoundTrip(level, key, rest);
      case Deleted(level, number) =>
        Concat3(PutVarint(6), PutVarint(level), PutVarint(number));
        Concat3(PutVarint(6), PutVarint(level) + PutVarint(number), rest);
        GetPut(6, LIMIT32, PutVarint(level) + PutVarint(number) + rest);
        DeletedRoundTrip(level, number, rest);
      case NewFile(level, number, size, smallest, largest) =>
        NewFileLayout(PutVarint(7), PutVarint(level), PutVarint(number), PutVarint(size), PutSlice(smallest), PutSlice(largest), rest);
        GetPut(7, LIMIT32, PutVarint(level) + (PutVarint(number) + (PutVarint(size) + (PutSlice(smallest) + (PutSlice(largest) + rest)))));
        NewFileRoundTrip(level, number, size, smallest, largest, rest);
    }
  }

  // ---------------------------------------------------------------- edits

  datatype FileMeta = FileMeta(number: nat, size: nat, smallest: seq<Byte>, largest: seq<Byte>)

  /** `deleted` lists a set of (level, number) in increasing order. */
  datatype VersionEdit = VersionEdit(
    comparator: Option<seq<Byte>>,
    logNumber: Option<nat>,
    prevLog: Option<nat>,
    nextFile: Option<nat>,
    lastSequence: Option<nat>,
    pointers: seq<(nat, seq<Byte>)>,
    deleted: seq<(nat, nat)>,
    added: seq<(nat, FileMeta)>)

  const EMPTY := VersionEdit(None, None, None, None, None, [], [], [])

  predicate PairLess(a: (nat, nat), b: (nat, nat)) {
    a.0 < b.0 || (a.0 == b.0 && a.1 < b.1)
  }

  ghost predicate Increasing(ps: seq<(nat, nat)>) {
    forall i, j :: 0 <= i < j < |ps| ==> PairLess(ps[i], ps[j])
  }

  /** Insertion into the set, kept in order. */
  function InsertPair(ps: seq<(nat, nat)>, p: (nat, nat)): seq<(nat, nat)> {
    if ps == [] then [p]
    else if PairLess(p, ps[0]) then [p] + ps
    else if p == ps[0] then ps
    else [ps[0]] + InsertPair(ps[1..], p)
  }

  lemma {:induction false} InsertLast(ps: seq<(nat, nat)>, p: (nat, nat))
    requires forall i :: 0 <= i < |ps| ==> PairLess(ps[i], p)
    ensures InsertPair(ps, p) == ps + [p]
  {
    if ps != [] {
      InsertLast(ps[1..], p);
      assert ps + [p] == [ps[0]] + (ps[1..] + [p]);
    }
  }

  function OptNumber(tag: nat, n: Option<nat>): seq<Item> {
    if n.Some? then [Number(tag, n.value)] else []
  }

  /** The fields in the order `EncodeTo` writes them. */
  function Scalars(e: VersionEdit): seq<Item> {
    (if e.comparator.Some? then [Comparator(e.comparator.value)] else []) + OptNumber(LOG_NUMBER, e.logNumber)
    + OptNumber(PREV_LOG, e.prevLog) + OptNumber(NEXT_FILE, e.nextFile) + OptNumber(LAST_SEQUENCE, e.lastSequence)
  }

  function Pointers(ps: seq<(nat, seq<Byte>)>): seq<Item> {
    seq(|ps|, i requires 0 <= i < |ps| => Pointer(ps[i].0, ps[i].1))
  }

  function Deletions(ds: seq<(nat, nat)>): seq<Item> {
    seq(|ds|, i requires 0 <= i < |ds| => Deleted(ds[i].0, ds[i].1))
  }

  function Additions(fs: seq<(nat, FileMeta)>): seq<Item> {
    seq(|fs|, i requires 0 <= i < |fs| =>
      NewFile(fs[i].0, fs[i].1.number, fs[i].1.size, fs[i].1.smallest, fs[i].1.largest))
  }

  function Items(e: VersionEdit): seq<Item> {
    Scalars(e) + Pointers(e.pointers) + Deletions(e.deleted) + Additions(e.added)
  }

  function PutItems(items: seq<Item>): seq<Byte> {
    if items == [] then [] else PutItems(items[..|items| - 1]) + PutItem(items[|items| - 1])
  }

  function Encode(e: VersionEdit): seq<Byte> {
    PutItems(Items(e))
  }

  ghost predicate EditOk(e: VersionEdit) {
    Increasing(e.deleted) && forall i :: i in Items(e) ==> ItemOk(i)
  }

  /** What `DecodeFrom` does with a field: the last scalar wins, lists and the set grow. */
  function Absorb(e: VersionEdit, i: Item): VersionEdit {
    match i
    case Comparator(name) => e.(comparator := Some(name))
    case Number(tag, value) =>
      if tag == LOG_NUMBER then e.(logNumber := Some(value))
      else if tag == PREV_LOG then e.(prevLog := Some(value))
      else if tag == NEXT_FILE then e.(nextFile := Some(value))
      else e.(lastSequence := Some(value))
    case Pointer(level, key) => e.(pointers := e.pointers + [(level, key)])
    case Deleted(level, number) => e.(deleted := InsertPair(e.deleted, (level, number)))
    case NewFile(level, number, size, smallest, largest) => e.(added := e.added + [(level, FileMeta(number, size, smallest, largest))])
  }

  function AbsorbAll(e: VersionEdit, items: seq<Item>): VersionEdit {
    if items == [] then e else Absorb(AbsorbAll(e, items[..|items| - 1]), items[|items| - 1])
  }

  /** The decoder on arbitrary bytes; None is a corruption. */
  function DecodeFrom(input: seq<Byte>, e: VersionEdit): (r: Option<VersionEdit>)
    decreases |input|
  {
    if input == [] then Some(e)
    else
      match GetItem(input)
      case None => None
      case Some((item, rest)) => DecodeFrom(rest, Absorb(e, item))
  }

  // ---------------------------------------------------------------- round trip

  /** Well-formed fields are absorbed one by one, whatever follows. */
  lemma {:induction false} DecodeItems(items: seq<Item>, e: VersionEdit, rest: seq<Byte>)
    requires forall i :: i in items ==> ItemOk(i)
    ensures DecodeFrom(PutItems(items) + rest, e) == DecodeFrom(rest, AbsorbAll(e, items))
  {
    if items == [] {
      assert PutItems(items) + rest == rest;
    } else {
      var front, last := items[..|items| - 1], items[|items| - 1];
      assert last in items && forall i :: i in front ==> i in items;
      Concat3(PutItems(front), PutItem(last), rest);
      hide PutItem, ItemOk, GetItem, Absorb;
      DecodeItems(front, e, PutItem(last) + rest);
      ItemRoundTrip(last, rest);
    }
  }

  lemma {:induction false} AbsorbConcat(e: VersionEdit, a: seq<Item>, b: seq<Item>)
    ensures AbsorbAll(e, a + b) == AbsorbAll(AbsorbAll(e, a), b)
    decreases |b|
  {
    if b == [] {
      assert a + b == a;
    } else {
      var front := b[..|b| - 1];
      assert (a + b)[..|a + b| - 1] == a + front;
      AbsorbConcat(e, a, front);
    }
  }

  lemma AbsorbNumber(e: VersionEdit, tag: nat, n: Option<nat>)
    ensures AbsorbAll(e, OptNumber(tag, n)) == if n.Some? then Absorb(e, Number(tag, n.value)) else e
  {
    if n.Some? { AbsorbOne(e, Number(tag, n.value)); }
  }

  lemma AbsorbOne(e: VersionEdit, i: Item)
    ensures AbsorbAll(e, [i]) == Absorb(e, i)
  {
    assert [i][..0] == [];
    assert AbsorbAll(e, []) == e;
  }

  lemma AbsorbScalars(e: VersionEdit)
    ensures AbsorbAll(EMPTY, Scalars(e)) == e.(pointers := [], deleted := [], added := [])
  {
    var a := if e.comparator.Some? then [Comparator(e.comparator.value)] else [];
    var b, c, d, f := OptNumber(LOG_NUMBER, e.logNumber), OptNumber(PREV_LOG, e.prevLog), OptNumber(NEXT_FILE, e.nextFile),
      OptNumber(LAST_SEQUENCE, e.lastSequence);
    if e.comparator.Some? { AbsorbOne(EMPTY, Comparator(e.comparator.value)); }
    var e1 := EMPTY.(comparator := e.comparator);
    assert AbsorbAll(EMPTY, a) == e1;
    hide AbsorbAll, OptNumber;
    AbsorbConcat(EMPTY, a, b);
    AbsorbConcat(EMPTY, a + b, c);
    AbsorbConcat(EMPTY, a + b + c, d);
    AbsorbConcat(EMPTY, a + b + c + d, f);
    AbsorbNumber(e1, LOG_NUMBER, e.logNumber);
    AbsorbNumber(e1.(logNumber := e.logNumber), PREV_LOG, e.prevLog);
    AbsorbNumber(e1.(logNumber := e.logNumber, prevLog := e.prevLog), NEXT_FILE, e.nextFile);
    AbsorbNumber(e1.(logNumber := e.logNumber, prevLog := e.prevLog, nextFile := e.nextFile), LAST_SEQUENCE, e.lastSequence);
  }

  lemma {:induction false} AbsorbPointers(e: VersionEdit, ps: seq<(nat, seq<Byte>)>)
    ensures AbsorbAll(e, Pointers(ps)) == e.(pointers := e.pointers + ps)
  {
    if ps == [] {
      assert e.pointers + ps == e.pointers;
    } else {
      var n := |ps| - 1;
      AbsorbPointers(e, ps[..n]);
      assert Pointers(ps)[..n] == Pointers(ps[..n]);
      assert e.pointers + ps == e.pointers + ps[..n] + [ps[n]];
    }
  }

  lemma {:induction false} AbsorbDeletions(e: VersionEdit, ds: seq<(nat, nat)>)
    requires Increasing(ds) && e.deleted == []
    ensures AbsorbAll(e, Deletions(ds)) == e.(deleted := ds)
  {
    if ds != [] {
      var n := |ds| - 1;
      AbsorbDeletions(e, ds[..n]);
      assert Deletions(ds)[..n] == Deletions(ds[..n]);
      InsertLast(ds[..n], ds[n]);
      assert ds == ds[..n] + [ds[n]];
    }
  }

  lemma {:induction false} AbsorbAdditions(e: VersionEdit, fs: seq<(nat, FileMeta)>)
    ensures AbsorbAll(e, Additions(fs)) == e.(added := e.added + fs)
  {
    if fs == [] {
      assert e.added + fs == e.added;
    } else {
      var n := |fs| - 1;
      AbsorbAdditions(e, fs[..n]);
      assert Additions(fs)[..n] == Additions(fs[..n]);
      assert e.added + fs == e.added + fs[..n] + [fs[n]];
    }
  }

  /** The fields of an edit rebuild it. */
  lemma AbsorbItems(e: VersionEdit)
    requires Increasing(e.deleted)
    ensures AbsorbAll(EMPTY, Items(e)) == e
  {
    var a, b, c, d := Scalars(e), Pointers(e.pointers), Deletions(e.deleted), Additions(e.added);
    assert EMPTY.pointers == [] && EMPTY.deleted == [] && EMPTY.added == [];
    assert Items(e) == a + b + c + d;
    assert [] + e.pointers == e.pointers && [] + e.added == e.added;
    hide AbsorbAll, Scalars, Pointers, Deletions, Additions;
    AbsorbConcat(EMPTY, a + b + c, d);
    AbsorbConcat(EMPTY, a + b, c);
    AbsorbConcat(EMPTY, a, b);
    AbsorbScalars(e);
    var e1 := e.(pointers := [], deleted := [], added := []);
    AbsorbPointers(e1, e.pointers);
    AbsorbDeletions(e.(deleted := [], added := []), e.deleted);
    AbsorbAdditions(e.(added := []), e.added);
  }

  /** Edits survive encoding and decoding. */
  lemma EditRoundTrip(e: VersionEdit)
    requires EditOk(e)
    ensures DecodeFrom(Encode(e), EMPTY) == Some(e)
  {
    assert PutItems(Items(e)) + [] == PutItems(Items(e));
    assert DecodeFrom([], e) == Some(e);
    hide DecodeFrom, Items, PutItems, ItemOk;
    DecodeItems(Items(e), EMPTY, []);
    AbsorbItems(e);
  }

  // ---------------------------------------------------------------- the loops

  lemma {:induction false} PutConcat(a: seq<Item>, b: seq<Item>)
    ensures PutItems(a + b) == PutItems(a) + PutItems(b)
    decreases |b|
  {
    if b == [] {
      assert a + b == a;
    } else {
      var front := b[..|b| - 1];
      assert (a + b)[..|a + b| - 1] == a + front;
      PutConcat(a, front);
      Concat3(PutItems(a), PutItems(front), PutItem(b[|b| - 1]));
    }
  }

  method PutAll(dst0: seq<Byte>, items: seq<Item>) returns (dst: seq<Byte>)
    ensures dst == dst0 + PutItems(items)
  {
    dst := dst0;
    for i := 0 to |items|
      invariant dst == dst0 + PutItems(items[..i])
    {
      assert items[..i + 1][..i] == items[..i];
      Concat3(dst0, PutItems(items[..i]), PutItem(items[i]));
      dst := dst + PutItem(items[i]);
    }
    assert items[..|items|] == items;
  }

  method EncodeTo(e: VersionEdit) returns (dst: seq<Byte>)
    ensures dst == Encode(e)
  {
    hide *;
    dst := PutAll([], Scalars(e));
    dst := PutAll(dst, Pointers(e.pointers));
    dst := PutAll(dst, Deletions(e.deleted));
    dst := PutAll(dst, Additions(e.added));
    EncodeParts(e);
  }

  lemma EncodeParts(e: VersionEdit)
    ensures Encode(e) == [] + PutItems(Scalars(e)) + PutItems(Pointers(e.pointers)) + PutItems(Deletions(e.deleted)) +
                         PutItems(Additions(e.added))
  {
    var a, b, c, d := Scalars(e), Pointers(e.pointers), Deletions(e.deleted), Additions(e.added);
    assert Encode(e) == PutItems(a + b + c + d);
    hide *;
    PutConcat(a, b);
    PutConcat(a + b, c);
    PutConcat(a + b + c, d);
    assert [] + PutItems(a) == PutItems(a);
  }

  lemma VarintBytes()
    ensures PutVarint(300) == [0xAC, 2] && forall v :: 0 <= v < 128 ==> PutVarint(v) == [v]
  {
    assert PutVarint(2) == [2];
  }

  lemma ScalarItemBytes()
    ensures PutItem(Comparator([108])) == [1, 1, 108] && PutItem(Number(LOG_NUMBER, 300)) == [2, 0xAC, 2]
    ensures PutItem(Number(PREV_LOG, 5)) == [9, 5] && PutItem(Number(NEXT_FILE, 6)) == [3, 6] && PutItem(Number(LAST_SEQUENCE, 7)) == [4, 7]
  {
    VarintBytes();
    hide PutVarint;
  }

  lemma PutOne(i: Item)
    ensures PutItems([i]) == PutItem(i)
  {
    assert [i][..0] == [] && PutItems([]) == [] && [] + PutItem(i) == PutItem(i);
  }

  lemma PutFive(a: Item, b: Item, c: Item, d: Item, f: Item)
    ensures PutItems([a] + [b] + [c] + [d] + [f]) == PutItem(a) + PutItem(b) + PutItem(c) + PutItem(d) + PutItem(f)
  {
    hide *;
    PutOne(a);
    PutOne(b);
    PutOne(c);
    PutOne(d);
    PutOne(f);
    PutConcat([a], [b]);
    PutConcat([a] + [b], [c]);
    PutConcat([a] + [b] + [c], [d]);
    PutConcat([a] + [b] + [c] + [d], [f]);
  }

  lemma PointerBytes()
    ensures PutItem(Pointer(1, [8])) == [5, 1, 1, 8] && PutItem(Deleted(2, 300)) == [6, 2, 0xAC, 2]
  {
    VarintBytes();
    hide PutVarint;
  }

  lemma NewFileBytes()
    ensures PutItem(NewFile(3, 300, 4, [10], [11, 12])) == [7, 3] + [0xAC, 2] + [4, 1, 10] + [2, 11, 12]
  {
    VarintBytes();
    assert PutSlice([10]) == [1, 10] && PutSlice([11, 12]) == [2, 11, 12];
    hide PutVarint, PutSlice;
  }

  lemma SampleItems(e: VersionEdit)
    requires e == VersionEdit(Some([108]), Some(300), Some(5), Some(6), Some(7), [(1, [8])], [(2, 300)], [(3, FileMeta(300, 4, [10], [11, 12]))])
    ensures Scalars(e) == [Comparator([108])] + [Number(LOG_NUMBER, 300)] + [Number(PREV_LOG, 5)] + [Number(NEXT_FILE, 6)] + [Number(LAST_SEQUENCE, 7)]
    ensures Pointers(e.pointers) == [Pointer(1, [8])] && Deletions(e.deleted) == [Deleted(2, 300)]
    ensures Additions(e.added) == [NewFile(3, 300, 4, [10], [11, 12])]
  {
  }

  /** An edit that uses every tag, byte by byte as it stands in the manifest. */
  lemma EditBytes(e: VersionEdit)
    requires e == VersionEdit(Some([108]), Some(300), Some(5), Some(6), Some(7), [(1, [8])], [(2, 300)], [(3, FileMeta(300, 4, [10], [11, 12]))])
    ensures Encode(e) == ([1, 1, 108] + [2, 0xAC, 2] + [9, 5] + [3, 6] + [4, 7]) + [5, 1, 1, 8] + [6, 2, 0xAC, 2]
                         + ([7, 3] + [0xAC, 2] + [4, 1, 10] + [2, 11, 12])
  {
    hide *;
    EncodeParts(e);
    SampleItems(e);
    ScalarItemBytes();
    PutFive(Comparator([108]), Number(LOG_NUMBER, 300), Number(PREV_LOG, 5), Number(NEXT_FILE, 6), Number(LAST_SEQUENCE, 7));
    PutOne(Pointer(1, [8]));
    PutOne(Deleted(2, 300));
    PutOne(NewFile(3, 300, 4, [10], [11, 12]));
    PointerBytes();
    NewFileBytes();
    assert [] + PutItems(Scalars(e)) == PutItems(Scalars(e));
  }

  method Decode(src: seq<Byte>) returns (r: Option<VersionEdit>)
    ensures r == DecodeFrom(src, EMPTY)
    ensures forall e :: EditOk(e) && src == Encode(e) ==> r == Some(e)
  {
    forall e | EditOk(e) && src == Encode(e) ensures DecodeFrom(src, EMPTY) == Some(e) { EditRoundTrip(e); }
    hide GetItem, Absorb, EditOk, Encode;
    var input, e := src, EMPTY;
    while input != []
      invariant DecodeFrom(input, e) == DecodeFrom(src, EMPTY)
      decreases |input|
    {
      var item := GetItem(input);
      if item.None? {
        return None;
      }
      e := Absorb(e, item.value.0);
      input := item.value.1;
    }
    r := Some(e);
  }

  // ---------------------------------------------------------------- a manifest as bytes

  function EncodeAll(edits: seq<VersionEdit>): seq<seq<Byte>> {
    seq(|edits|, i requires 0 <= i < |edits| => Encode(edits[i]))
  }

  /** Reading any byte prefix of a manifest gives the edits whose records lie wholly inside it. */
  lemma TornManifest(edits: seq<VersionEdit>, n: nat)
    requires (forall i :: 0 <= i < |edits| ==> EditOk(edits[i])) && n <= |FileOf(EncodeAll(edits))|
    ensures var (records, last) := ReadAll(FileOf(EncodeAll(edits))[..n], START);
            && last.drops == [] && |records| == Complete(EncodeAll(edits), n) <= |edits|
            && forall i :: 0 <= i < |records| ==> DecodeFrom(records[i], EMPTY) == Some(edits[i])
  {
    var rs := EncodeAll(edits);
    hide EditOk, Encode, DecodeFrom, ReadAll, FileOf, Complete;
    TornTail(rs, n);
    forall i | 0 <= i < |edits| ensures DecodeFrom(rs[i], EMPTY) == Some(edits[i]) { EditRoundTrip(edits[i]); }
  }
}
