/** Write batches as bytes: the representation that `Put`, `Delete` and `Append` extend in place, and
    its scan. Keys and values are the byte strings the code stores. */
module BatchFormat {
  import opened Optional
  import opened Crc32c
  import opened LogFormat
  import opened LogReader
  import opened TornLog
  import EditFormat

  datatype Change = Put(key: seq<Byte>, value: seq<Byte>) | Delete(key: seq<Byte>)

  const HEADER: nat := 12

  function EncodeFixed64(x: nat): (r: seq<Byte>)
    requires x < 0x1_0000_0000_0000_0000
    ensures |r| == 8
  {
    EncodeFixed32(x % 0x1_0000_0000) + EncodeFixed32(x / 0x1_0000_0000)
  }

  function DecodeFixed64(b: seq<Byte>): nat
    requires |b| == 8
  {
    DecodeFixed32(b[..4]) as int + (DecodeFixed32(b[4..]) as int) * 0x1_0000_0000
  }

  lemma DecodeEncodeFixed64(x: nat)
    requires x < 0x1_0000_0000_0000_0000
    ensures DecodeFixed64(EncodeFixed64(x)) == x
  {
    var low, high := EncodeFixed32(x % 0x1_0000_0000), EncodeFixed32(x / 0x1_0000_0000);
    assert (low + high)[..4] == low && (low + high)[4..] == high;
    DecodeEncodeFixed32(x % 0x1_0000_0000);
    DecodeEncodeFixed32(x / 0x1_0000_0000);
  }

  /** `PutLengthPrefixedSlice`: the length is cut to 32 bits. */
  function PutSlice(s: seq<Byte>): (r: seq<Byte>)
    ensures r != []
  {
    EditFormat.PutVarint(|s| % 0x1_0000_0000) + s
  }

  function PutChange(c: Change): (r: seq<Byte>)
    ensures r != []
  {
    match c
    case Put(key, value) => [1] + PutSlice(key) + PutSlice(value)
    case Delete(key) => [0] + PutSlice(key)
  }

  function Data(cs: seq<Change>): seq<Byte> {
    if cs == [] then [] else Data(cs[..|cs| - 1]) + PutChange(cs[|cs| - 1])
  }

  /** The representation of a batch: sequence number, count, changes. */
  function Rep(seqno: nat, cs: seq<Change>): (r: seq<Byte>)
    requires seqno < 0x1_0000_0000_0000_0000
    ensures |r| >= HEADER
  {
    EncodeFixed64(seqno) + EncodeFixed32(|cs| % 0x1_0000_0000) + Data(cs)
  }

  predicate Short(c: Change) {
    |c.key| < 0x1_0000_0000 && (c.Put? ==> |c.value| < 0x1_0000_0000)
  }

  // ---------------------------------------------------------------- the scan

  datatype Status = Ok | TooSmall | BadPut | BadDelete | UnknownTag | WrongCount

  /** One change from the front of the input. */
  function GetChange(input: seq<Byte>): (r: (Status, Option<(Change, seq<Byte>)>))
    requires input != []
    ensures r.1.Some? <==> r.0.Ok?
    ensures r.1.Some? ==> |r.1.value.1| < |input|
  {
    if input[0] == 1 then
      match EditFormat.GetSlice(input[1..])
      case None => (BadPut, None)
      case Some((key, a)) =>
        match EditFormat.GetSlice(a) {
          case None => (BadPut, None)
          case Some((value, b)) => (Ok, Some((Put(key, value), b)))
        }
    else if input[0] == 0 then
      match EditFormat.GetSlice(input[1..])
      case None => (BadDelete, None)
      case Some((key, a)) => (Ok, Some((Delete(key), a)))
    else (UnknownTag, None)
  }

  /** What the handler has seen when the scan ends, and how it ended. */
  function Scan(input: seq<Byte>): (r: (Status, seq<Change>))
    decreases |input|
  {
    if input == [] then (Ok, [])
    else
      var (status, next) := GetChange(input);
      if next.None? then (status, [])
      else
        var (last, more) := Scan(next.value.1);
        (last, [next.value.0] + more)
  }

  lemma SliceRoundTrip(s: seq<Byte>, rest: seq<Byte>)
    requires |s| < 0x1_0000_0000
    ensures EditFormat.GetSlice(PutSlice(s) + rest) == Some((s, rest))
  {
    EditFormat.GetPutSlice(s, rest);
    assert PutSlice(s) == EditFormat.PutSlice(s);
  }

  lemma ChangeRoundTrip(c: Change, rest: seq<Byte>)
    requires Short(c)
    ensures GetChange(PutChange(c) + rest) == (Ok, Some((c, rest)))
  {
    hide PutSlice;
    match c {
      case Put(key, value) =>
        Concat3([1] + PutSlice(key), PutSlice(value), rest);
        Concat3([1], PutSlice(key), PutSlice(value) + rest);
        SliceRoundTrip(key, PutSlice(value) + rest);
        SliceRoundTrip(value, rest);
      case Delete(key) =>
        Concat3([0], PutSlice(key), rest);
        SliceRoundTrip(key, rest);
    }
  }

  lemma DataFirst(cs: seq<Change>)
    requires cs != []
    ensures Data(cs) == PutChange(cs[0]) + Data(cs[1..])
  {
    hide PutChange;
    DataConcat([cs[0]], cs[1..]);
    assert [cs[0]] + cs[1..] == cs;
    assert [cs[0]][..0] == [] && Data([]) == [] && Data([cs[0]]) == [] + PutChange(cs[0]);
  }

  lemma {:induction false} DataConcat(a: seq<Change>, b: seq<Change>)
    ensures Data(a + b) == Data(a) + Data(b)
    decreases |b|
  {
    hide PutChange;
    if b == [] {
      assert a + b == a;
    } else {
      var front := b[..|b| - 1];
      assert (a + b)[..|a + b| - 1] == a + front;
      DataConcat(a, front);
      Concat3(Data(a), Data(front), PutChange(b[|b| - 1]));
    }
  }

  lemma ScanNothing()
    ensures Data([]) == [] && Scan([]) == (Ok, [])
  {
  }

  lemma ScanOne(input: seq<Byte>, c: Change, rest: seq<Byte>)
    requires input != [] && GetChange(input) == (Ok, Some((c, rest)))
    ensures Scan(input) == (Scan(rest).0, [c] + Scan(rest).1)
  {
    hide GetChange;
  }

  /** The handler sees the changes in the order in which they were made. */
  lemma {:induction false} ScanData(cs: seq<Change>)
    requires forall c :: c in cs ==> Short(c)
    ensures Scan(Data(cs)) == (Ok, cs)
  {
    hide *;
    if cs == [] {
      ScanNothing();
    } else {
      DataFirst(cs);
      assert cs[0] in cs && forall c :: c in cs[1..] ==> c in cs;
      ChangeRoundTrip(cs[0], Data(cs[1..]));
      ScanData(cs[1..]);
      ScanOne(PutChange(cs[0]) + Data(cs[1..]), cs[0], Data(cs[1..]));
      assert [cs[0]] + cs[1..] == cs;
    }
  }

  /** The count as `Count` returns it: a signed 32-bit number. */
  function Count(rep: seq<Byte>): int
    requires |rep| >= HEADER
  {
    var n := DecodeFixed32(rep[8..12]) as int;
    if n < 0x8000_0000 then n else n - 0x1_0000_0000
  }

  function Sequence(rep: seq<Byte>): nat
    requires |rep| >= HEADER
  {
    DecodeFixed64(rep[..8])
  }

  lemma RepParts(seqno: nat, cs: seq<Change>)
    requires seqno < 0x1_0000_0000_0000_0000
    ensures var rep := Rep(seqno, cs);
            && |rep| >= 12 == HEADER && rep[..8] == EncodeFixed64(seqno) && rep[8..12] == EncodeFixed32(|cs| % 0x1_0000_0000)
            && rep[12..] == Data(cs) && Sequence(rep) == seqno && DecodeFixed32(rep[8..12]) == |cs| % 0x1_0000_0000
  {
    var a, b := EncodeFixed64(seqno), EncodeFixed32(|cs| % 0x1_0000_0000);
    var rep := a + b + Data(cs);
    hide Data, EncodeFixed64, EncodeFixed32, DecodeFixed32, DecodeFixed64;
    assert rep[..8] == a && rep[8..12] == b && rep[12..] == Data(cs);
    DecodeEncodeFixed64(seqno);
    DecodeEncodeFixed32(|cs| % 0x1_0000_0000);
  }

  /** What `Iterate` reports about any bytes. */
  function Verdict(rep: seq<Byte>): (Status, seq<Change>) {
    if |rep| < HEADER then (TooSmall, [])
    else
      var (status, seen) := Scan(rep[12..]);
      if status.Ok? && |seen| != Count(rep) then (WrongCount, seen) else (status, seen)
  }

  /** Batches are read back in full, unless they hold so many changes that the count turns negative. */
  lemma RepRoundTrip(seqno: nat, cs: seq<Change>)
    requires seqno < 0x1_0000_0000_0000_0000 && forall c :: c in cs ==> Short(c)
    ensures Sequence(Rep(seqno, cs)) == seqno
    ensures Verdict(Rep(seqno, cs)) == (if |cs| < 0x8000_0000 then Ok else WrongCount, cs)
  {
    hide *;
    RepParts(seqno, cs);
    ScanData(cs);
    CountIs(Rep(seqno, cs), |cs|);
    VerdictIs(Rep(seqno, cs));
  }

  lemma CountIs(rep: seq<Byte>, n: nat)
    requires |rep| >= HEADER && DecodeFixed32(rep[8..12]) == n % 0x1_0000_0000
    ensures Count(rep) == n <==> n < 0x8000_0000
  {
    hide DecodeFixed32;
  }

  lemma VerdictIs(rep: seq<Byte>)
    requires |rep| >= 12 == HEADER && Scan(rep[12..]).0.Ok?
    ensures Verdict(rep) == (if |Scan(rep[12..]).1| == Count(rep) then Ok else WrongCount, Scan(rep[12..]).1)
  {
    hide Scan, Count;
  }

  // ---------------------------------------------------------------- the object

  class WriteBatch {
    var rep: seq<Byte>
    ghost var seqno: nat
    ghost var changes: seq<Change>

    ghost predicate Valid()
      reads this
    {
      seqno < 0x1_0000_0000_0000_0000 && rep == Rep(seqno, changes)
    }

    constructor ()
      ensures Valid() && changes == [] && seqno == 0
    {
      rep := seq(12, _ => 0);
      seqno, changes := 0, [];
      new;
      EmptyRep(rep);
    }

    /** `SetCount`: the four bytes are rewritten in place. */
    method SetCount(n: nat)
      requires |rep| >= HEADER
      modifies this`rep
      ensures rep == old(rep[..8]) + EncodeFixed32(n % 0x1_0000_0000) + old(rep[12..])
    {
      rep := rep[..8] + EncodeFixed32(n % 0x1_0000_0000) + rep[12..];
    }

    method AddChange(c: Change)
      requires Valid()
      modifies this
      ensures Valid() && changes == old(changes) + [c] && seqno == old(seqno)
    {
      hide *;
      ghost var was := changes;
      BatchIs();
      RepParts(seqno, changes);
      CountNext(rep, |changes|);
      SetCount(DecodeFixed32(rep[8..12]) + 1);
      rep := rep + PutChange(c);
      changes := changes + [c];
      RepNext(seqno, was, c);
      BatchIntro();
    }

    method Put(key: seq<Byte>, value: seq<Byte>)
      requires Valid()
      modifies this
      ensures Valid() && changes == old(changes) + [Change.Put(key, value)] && seqno == old(seqno)
    {
      AddChange(Change.Put(key, value));
    }

    method Delete(key: seq<Byte>)
      requires Valid()
      modifies this
      ensures Valid() && changes == old(changes) + [Change.Delete(key)] && seqno == old(seqno)
    {
      AddChange(Change.Delete(key));
    }

    /** `Append`: the counts are added, and the other batch's changes follow without its header. */
    method Append(source: WriteBatch)
      requires Valid() && source.Valid()
      modifies this
      ensures Valid() && changes == old(changes) + old(source.changes) && seqno == old(seqno)
    {
      hide *;
      BatchIs();
      source.BatchIs();
      RepParts(seqno, changes);
      RepParts(source.seqno, source.changes);
      ghost var was, more := changes, source.changes;
      var data := source.rep[12..];
      CountSum(|was|, |more|);
      SetCount(DecodeFixed32(rep[8..12]) as int + DecodeFixed32(source.rep[8..12]) as int);
      rep := rep + data;
      changes := was + more;
      RepSum(seqno, was, more);
      BatchIntro();
    }

    /** `SetSequence`. */
    method SetSequence(n: nat)
      requires Valid() && n < 0x1_0000_0000_0000_0000
      modifies this
      ensures Valid() && changes == old(changes) && seqno == n
    {
      hide *;
      BatchIs();
      RepParts(seqno, changes);
      rep := EncodeFixed64(n) + rep[8..];
      Renumbered(seqno, n, changes);
      seqno := n;
      BatchIntro();
    }

    lemma BatchIs()
      requires Valid()
      ensures seqno < 0x1_0000_0000_0000_0000 && rep == Rep(seqno, changes)
    {
    }

    lemma BatchIntro()
      requires seqno < 0x1_0000_0000_0000_0000 && rep == Rep(seqno, changes)
      ensures Valid()
    {
    }

    /** `Iterate` over a well-formed batch shows the handler its changes in order. */
    method IterateChanges() returns (status: Status, seen: seq<Change>)
      requires Valid()
      ensures (forall c :: c in changes ==> Short(c)) ==> seen == changes && (status.Ok? <==> |changes| < 0x8000_0000)
    {
      hide *;
      BatchIs();
      if forall c :: c in changes ==> Short(c) { RepRoundTrip(seqno, changes); }
      status, seen := Iterate(rep);
    }
  }

  lemma EmptyRep(rep: seq<Byte>)
    requires |rep| == 12 && forall i :: 0 <= i < 12 ==> rep[i] == 0
    ensures rep == Rep(0, [])
  {
    assert EncodeFixed32(0) == [0, 0, 0, 0];
    assert Rep(0, []) == [0, 0, 0, 0] + [0, 0, 0, 0] + [0, 0, 0, 0] + [];
  }

  lemma CountNext(rep: seq<Byte>, n: nat)
    requires |rep| >= HEADER && DecodeFixed32(rep[8..12]) == n % 0x1_0000_0000
    ensures (DecodeFixed32(rep[8..12]) as int + 1) % 0x1_0000_0000 == (n + 1) % 0x1_0000_0000
  {
    hide DecodeFixed32;
  }

  lemma CountSum(m: nat, n: nat)
    ensures (m % 0x1_0000_0000 + n % 0x1_0000_0000) % 0x1_0000_0000 == (m + n) % 0x1_0000_0000
  {
  }

  lemma RepNext(seqno: nat, cs: seq<Change>, c: Change)
    requires seqno < 0x1_0000_0000_0000_0000
    ensures Rep(seqno, cs + [c]) == EncodeFixed64(seqno) + EncodeFixed32((|cs| + 1) % 0x1_0000_0000) + Data(cs) + PutChange(c)
  {
    hide EncodeFixed64, EncodeFixed32, PutChange;
    assert (cs + [c])[..|cs|] == cs;
    Concat3(EncodeFixed64(seqno) + EncodeFixed32((|cs| + 1) % 0x1_0000_0000), Data(cs), PutChange(c));
  }

  lemma RepSum(seqno: nat, a: seq<Change>, b: seq<Change>)
    requires seqno < 0x1_0000_0000_0000_0000
    ensures Rep(seqno, a + b) == EncodeFixed64(seqno) + EncodeFixed32((|a| + |b|) % 0x1_0000_0000) + Data(a) + Data(b)
  {
    hide EncodeFixed64, EncodeFixed32, Data;
    DataConcat(a, b);
    Concat3(EncodeFixed64(seqno) + EncodeFixed32((|a| + |b|) % 0x1_0000_0000), Data(a), Data(b));
  }

  lemma Renumbered(seqno: nat, n: nat, cs: seq<Change>)
    requires seqno < 0x1_0000_0000_0000_0000 && n < 0x1_0000_0000_0000_0000
    ensures Rep(n, cs) == EncodeFixed64(n) + Rep(seqno, cs)[8..]
  {
    hide EncodeFixed64, EncodeFixed32, Data;
    var b := EncodeFixed32(|cs| % 0x1_0000_0000);
    assert Rep(seqno, cs)[8..] == b + Data(cs);
    Concat3(EncodeFixed64(n), b, Data(cs));
  }

  /** `WriteBatch::Iterate` on arbitrary bytes. The handler sees changes before an error is found. */
  method Iterate(rep: seq<Byte>) returns (status: Status, seen: seq<Change>)
    ensures (status, seen) == Verdict(rep)
  {
    if |rep| < HEADER {
      return TooSmall, [];
    }
    hide GetChange, Count;
    var input := rep[12..];
    seen := [];
    ghost var goal := Scan(rep[12..]);
    assert goal == (Scan(input).0, seen + Scan(input).1) by { assert [] + Scan(input).1 == Scan(input).1; }
    while input != []
      invariant goal == (Scan(input).0, seen + Scan(input).1)
      decreases |input|
    {
      var (st, next) := GetChange(input);
      if next.None? {
        assert seen + [] == seen;
        return st, seen;
      }
      assert seen + ([next.value.0] + Scan(next.value.1).1) == (seen + [next.value.0]) + Scan(next.value.1).1;
      seen := seen + [next.value.0];
      input := next.value.1;
    }
    assert seen + [] == seen;
    status := if |seen| != Count(rep) then WrongCount else Ok;
  }

  /** `InsertInto`: the handler numbers the changes from the batch's sequence number on. */
  method InsertInto(rep: seq<Byte>) returns (status: Status, added: seq<(nat, Change)>)
    requires |rep| >= HEADER
    ensures status == Verdict(rep).0 && |added| == |Verdict(rep).1|
    ensures forall i :: 0 <= i < |added| ==> added[i] == (Sequence(rep) + i, Verdict(rep).1[i])
  {
    hide *;
    var seen;
    status, seen := Iterate(rep);
    added := [];
    var sequence := Sequence(rep);
    for i := 0 to |seen|
      invariant |added| == i && sequence == Sequence(rep) + i
      invariant forall k :: 0 <= k < i ==> added[k] == (Sequence(rep) + k, seen[k])
    {
      added := added + [(sequence, seen[i])];
      sequence := sequence + 1;
    }
  }

  // ---------------------------------------------------------------- a log of batches

  datatype Logged = Logged(seqno: nat, changes: seq<Change>)

  ghost predicate LoggedOk(b: Logged) {
    |b.changes| < 0x8000_0000 && forall c :: c in b.changes ==> Short(c)
  }

  function Reps(bs: seq<Logged>): (r: seq<seq<Byte>>)
    requires forall i :: 0 <= i < |bs| ==> bs[i].seqno < 0x1_0000_0000_0000_0000
    ensures |r| == |bs| && forall i :: 0 <= i < |bs| ==> r[i] == Rep(bs[i].seqno, bs[i].changes)
  {
    seq(|bs|, i requires 0 <= i < |bs| => Rep(bs[i].seqno, bs[i].changes))
  }

  /** Reading any byte prefix of a write-ahead log gives the batches whose records lie wholly inside it,
      in order and each in full, and no corruption. */
  lemma TornBatches(bs: seq<Logged>, n: nat)
    requires (forall i :: 0 <= i < |bs| ==> LoggedOk(bs[i]) && bs[i].seqno < 0x1_0000_0000_0000_0000) && n <= |FileOf(Reps(bs))|
    ensures var (records, last) := ReadAll(FileOf(Reps(bs))[..n], START);
            && last.drops == [] && |records| == Complete(Reps(bs), n) <= |bs|
            && forall i :: 0 <= i < |records| ==> |records[i]| >= HEADER && Sequence(records[i]) == bs[i].seqno && Verdict(records[i]) == (Ok, bs[i].changes)
  {
    hide *;
    var rs := Reps(bs);
    TornTail(rs, n);
    forall i | 0 <= i < |bs| ensures |rs[i]| >= HEADER && Sequence(rs[i]) == bs[i].seqno && Verdict(rs[i]) == (Ok, bs[i].changes) {
      ReadBackBatch(bs[i]);
    }
  }

  lemma ReadBackBatch(b: Logged)
    requires LoggedOk(b) && b.seqno < 0x1_0000_0000_0000_0000
    ensures var rep := Rep(b.seqno, b.changes);
            |rep| >= HEADER && Sequence(rep) == b.seqno && Verdict(rep) == (Ok, b.changes)
  {
    hide Rep, Verdict, Sequence;
    RepRoundTrip(b.seqno, b.changes);
  }

  /** A batch as it stands in the log. */
  lemma RepBytes()
    ensures Rep(258, [Put([107], [118, 119]), Delete([120])]) ==
            ([2, 1, 0, 0] + [0, 0, 0, 0]) + [2, 0, 0, 0] + ([1, 1, 107, 2, 118, 119] + [0, 1, 120])
  {
    var p, d := Put([107], [118, 119]), Delete([120]);
    assert EncodeFixed32(258) == [2, 1, 0, 0] && EncodeFixed32(0) == [0, 0, 0, 0] && EncodeFixed32(2) == [2, 0, 0, 0];
    assert PutChange(p) == [1, 1, 107, 2, 118, 119] && PutChange(d) == [0, 1, 120] by { EditFormat.VarintBytes(); }
    assert Data([p, d]) == PutChange(p) + PutChange(d) by {
      assert [p, d][..1] == [p] && [p][..0] == [] && Data([]) == [] && Data([p]) == [] + PutChange(p);
    }
    hide PutChange, Data, EncodeFixed32;
  }
}
