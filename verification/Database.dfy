/** The database object: the code that takes the steps of the store. */
module Database {
  import opened Optional
  import opened Keys
  import opened Versions
  import opened Selection
  import opened Compactions
  import opened Preservation
  import opened Transitions
  import opened Manifest
  import opened Store
  import opened Batches
  import opened Steps
  import opened Recovery
  import opened Runs

  const MAX_MEM_COMPACT_LEVEL: nat := 2

  // ---------------------------------------------------------------- where a flushed table goes

  method SomeFileOverlapsRange(files: seq<File>, disjointSorted: bool, lo: Bound, hi: Bound) returns (r: bool)
    requires forall f :: f in files ==> FileOk(f)
    requires disjointSorted ==> LevelSorted(files)
    ensures r <==> exists f :: f in files && Overlaps(f, lo, hi)
  {
    if !disjointSorted {
      for i := 0 to |files|
        invariant forall f :: f in files[..i] ==> !Overlaps(f, lo, hi)
      {
        if Overlaps(files[i], lo, hi) {
          return true;
        }
      }
      return false;
    }
    var index := 0;
    if lo.Some? {
      index := FindFile(files, IKey(lo.value, MAX_SEQUENCE));
    }
    OverlapFromIndex(files, lo, hi, index);
    if index >= |files| {
      return false;
    }
    r := !(hi.Some? && hi.value < files[index].smallest.ukey);
  }

  lemma OverlapFromIndex(files: seq<File>, lo: Bound, hi: Bound, index: nat)
    requires (forall f :: f in files ==> FileOk(f)) && LevelSorted(files) && index <= |files|
    requires lo.None? ==> index == 0
    requires lo.Some? ==> forall i :: 0 <= i < index ==> Before(files[i].largest, IKey(lo.value, MAX_SEQUENCE))
    requires lo.Some? ==> forall i :: index <= i < |files| ==> !Before(files[i].largest, IKey(lo.value, MAX_SEQUENCE))
    ensures (exists f :: f in files && Overlaps(f, lo, hi)) <==>
              index < |files| && !(hi.Some? && hi.value < files[index].smallest.ukey)
  {
    forall i | 0 <= i < |files|
      ensures lo.Some? ==> (files[i].largest.ukey < lo.value <==> i < index)
      ensures index <= i ==> files[index].smallest.ukey <= files[i].smallest.ukey
    {
      assert files[i] in files && files[i].entries[|files[i].entries| - 1] in files[i].entries;
      if index < i {
        assert files[index] in files;
        InRange(files[index], files[index].entries[0]);
      }
    }
    if exists f :: f in files && Overlaps(f, lo, hi) {
      var f :| f in files && Overlaps(f, lo, hi);
      var i :| 0 <= i < |files| && files[i] == f;
    }
    if index < |files| && !(hi.Some? && hi.value < files[index].smallest.ukey) {
      assert files[index] in files && Overlaps(files[index], lo, hi);
    }
  }

  ghost predicate Touches(v: Version, l: nat, lo: UserKey, hi: UserKey)
    requires l < |v|
  {
    exists f :: f in v[l] && Overlaps(f, Some(lo), Some(hi))
  }

  method OverlapInLevel(v: Version, level: nat, lo: UserKey, hi: UserKey) returns (r: bool)
    requires VersionOk(v) && level < NUM_LEVELS
    ensures r <==> Touches(v, level, lo, hi)
  {
    assert |v| == NUM_LEVELS && LevelOk(v[level]) && (level > 0 ==> LevelSorted(v[level]));
    hide VersionOk;
    r := SomeFileOverlapsRange(v[level], level > 0, Some(lo), Some(hi));
  }

  ghost predicate ClearTo(v: Version, p: nat, lo: UserKey, hi: UserKey) {
    p < |v| && forall l :: 0 <= l <= p ==> !Touches(v, l, lo, hi)
  }

  /** Why the search for a level stops at `p`. */
  ghost predicate StopsAt(v: Version, p: nat, lo: UserKey, hi: UserKey, maxBytes: nat) {
    && |v| == NUM_LEVELS && p <= MAX_MEM_COMPACT_LEVEL
    && (|| p == MAX_MEM_COMPACT_LEVEL
        || (p == 0 && Touches(v, 0, lo, hi))
        || Touches(v, p + 1, lo, hi)
        || TotalSize(Overlapping(v[p + 2], Some(lo), Some(hi))) > maxBytes)
  }

  /** May the table go from level `p` one level further down? */
  method CanDescend(v: Version, p: nat, lo: UserKey, hi: UserKey, maxBytes: nat) returns (r: bool)
    requires VersionOk(v) && p < MAX_MEM_COMPACT_LEVEL && ClearTo(v, p, lo, hi)
    ensures r ==> ClearTo(v, p + 1, lo, hi) && p + 2 < |v| && TotalSize(Overlapping(v[p + 2], Some(lo), Some(hi))) <= maxBytes
    ensures !r ==> StopsAt(v, p, lo, hi, maxBytes)
  {
    assert |v| == NUM_LEVELS;
    hide VersionOk, Touches, Overlapping, TotalSize;
    var overlap := OverlapInLevel(v, p + 1, lo, hi);
    if overlap {
      return false;
    }
    var overlaps, b, e := GetOverlappingInputs(v[p + 2], false, Some(lo), Some(hi));
    r := TotalSize(overlaps) <= maxBytes;
  }

  /** The deepest of levels 0 to 2 that the new table can skip to without passing an overlapping file
      and without landing above too many grandparent bytes. */
  method PickLevelForMemTableOutput(v: Version, lo: UserKey, hi: UserKey, maxBytes: nat) returns (p: nat)
    requires VersionOk(v)
    ensures Picked(v, p, lo, hi) && p <= 2 && |v| == 7
    ensures p > 0 ==> forall l, f :: 0 <= l <= p && f in v[l] ==> f.largest.ukey < lo || hi < f.smallest.ukey
    ensures forall l :: 2 <= l < p + 2 ==> TotalSize(Overlapping(v[l], Some(lo), Some(hi))) <= maxBytes
    ensures || p == 2
            || (p == 0 && exists f :: f in v[0] && !(f.largest.ukey < lo || hi < f.smallest.ukey))
            || (exists f :: f in v[p + 1] && !(f.largest.ukey < lo || hi < f.smallest.ukey))
            || TotalSize(Overlapping(v[p + 2], Some(lo), Some(hi))) > maxBytes
  {
    hide *;
    p := 0;
    VersionLength(v);
    PickedAt0(v, lo, hi);
    var overlap := OverlapInLevel(v, 0, lo, hi);
    if overlap {
      return;
    }
    var descend := true;
    MaxLevel();
    while descend && p < MAX_MEM_COMPACT_LEVEL
      invariant p <= 2 && ClearTo(v, p, lo, hi)
      invariant forall l :: 2 <= l < p + 2 ==> TotalSize(Overlapping(v[l], Some(lo), Some(hi))) <= maxBytes
      invariant !descend ==> StopsAt(v, p, lo, hi, maxBytes)
      decreases 2 - p, descend
    {
      descend := CanDescend(v, p, lo, hi, maxBytes);
      if descend {
        p := p + 1;
      }
    }
    NothingTouched(v, p, lo, hi);
    PickedBelow(v, p, lo, hi, maxBytes);
  }

  lemma MaxLevel()
    ensures MAX_MEM_COMPACT_LEVEL == 2
  {
  }

  lemma PickedAt0(v: Version, lo: UserKey, hi: UserKey)
    requires |v| == NUM_LEVELS
    ensures |v| == 7 && Picked(v, 0, lo, hi)
    ensures !Touches(v, 0, lo, hi) ==> ClearTo(v, 0, lo, hi)
    ensures Touches(v, 0, lo, hi) ==> exists f :: f in v[0] && !(f.largest.ukey < lo || hi < f.smallest.ukey)
  {
  }

  /** The level picked, in terms of the files. */
  lemma PickedBelow(v: Version, p: nat, lo: UserKey, hi: UserKey, maxBytes: nat)
    requires |v| == 7 && p <= 2 && ClearTo(v, p, lo, hi) && (p < 2 ==> StopsAt(v, p, lo, hi, maxBytes))
    ensures forall l, f :: 0 <= l <= p && f in v[l] ==> f.largest.ukey < lo || hi < f.smallest.ukey
    ensures || p == 2
            || (exists f :: f in v[p + 1] && !(f.largest.ukey < lo || hi < f.smallest.ukey))
            || TotalSize(Overlapping(v[p + 2], Some(lo), Some(hi))) > maxBytes
  {
    hide TotalSize, Overlapping;
    forall l, f | 0 <= l <= p && f in v[l] ensures f.largest.ukey < lo || hi < f.smallest.ukey {
      assert !Touches(v, l, lo, hi);
    }
  }

  lemma NothingTouched(v: Version, p: nat, lo: UserKey, hi: UserKey)
    requires |v| <= NUM_LEVELS && ClearTo(v, p, lo, hi)
    ensures Picked(v, p, lo, hi)
  {
    forall l, g | 0 <= l <= p && g in v[l] ensures !Overlaps(g, Some(lo), Some(hi)) {
      assert !Touches(v, l, lo, hi);
    }
  }

  // ---------------------------------------------------------------- installing edits

  /** `VersionSet::LogAndApply` as far as versions are concerned: one builder over the current version. */
  method Install(v: Version, e: Edit) returns (w: Version)
    requires |v| == NUM_LEVELS && (forall l :: 0 <= l < NUM_LEVELS ==> Ordered(v[l])) && EditOk(e)
    requires forall l :: 0 <= l < NUM_LEVELS ==> FreshAt(Files(v[l]), e, l)
    ensures Installs(v, e, w)
  {
    var builder := new Builder(v);
    builder.Apply(e);
    forall l | 0 <= l < NUM_LEVELS ensures DeltaOf(builder.levels[l]) == ApplyTo(Delta({}, {}), e, l) && !Clash(v[l], builder.levels[l].added) {
      FreshInstall(Files(v[l]), e, l);
      DisjointNoClash(v[l], builder.levels[l].added);
    }
    w := builder.SaveTo();
  }

  lemma FreshInstall(files: set<File>, e: Edit, l: nat)
    requires FreshAt(files, e, l)
    ensures FreshAt(Files([]), e, l) && DeltaOf(Applied(Record({}, []), e, l)) == ApplyTo(Delta({}, {}), e, l)
    ensures Numbers(files) !! Numbers(Files(Applied(Record({}, []), e, l).added))
  {
    assert Files([]) == {};
    FreshIsApplyTo(Record({}, []), e, l);
    assert DeltaOf(Applied(Record({}, []), e, l)).add == AddedAt(e, l);
  }

  lemma NewNumbersInstallable(v: Version, next: nat, e: Edit, next2: nat)
    requires VersionOk(v) && NumbersOk(v, next) && NewNumbers(e, next, next2)
    ensures forall l :: 0 <= l < NUM_LEVELS ==> Ordered(v[l]) && FreshAt(Files(v[l]), e, l)
  {
    VersionOrdered(v);
    hide VersionOk;
  }

  // ---------------------------------------------------------------- output tables

  /** The entries of output `i` written as a table. */
  method MakeTables(outputs: seq<seq<Entry>>, next: nat, sizes: nat -> nat) returns (outs: seq<File>)
    requires forall i :: 0 <= i < |outputs| ==> outputs[i] != []
    ensures |outs| == |outputs|
    ensures forall i :: 0 <= i < |outs| ==> outs[i] == TableOf(next + i, sizes(i), outputs[i])
  {
    outs := [];
    for i := 0 to |outputs|
      invariant |outs| == i
      invariant forall j :: 0 <= j < i ==> outs[j] == TableOf(next + j, sizes(j), outputs[j])
    {
      outs := outs + [TableOf(next + i, sizes(i), outputs[i])];
    }
  }

  lemma {:induction false} FlattenOrder(outputs: seq<seq<Entry>>)
    requires Sorted(Flatten(outputs))
    ensures forall i :: 0 <= i < |outputs| ==> Sorted(outputs[i]) && Content(outputs[i]) <= Content(Flatten(outputs))
    ensures forall i, j, e, f :: 0 <= i < j < |outputs| && e in outputs[i] && f in outputs[j] ==> Before(e.ik, f.ik)
    ensures forall e :: e in Flatten(outputs) ==> exists i :: 0 <= i < |outputs| && e in outputs[i]
  {
    if outputs != [] {
      var n := |outputs| - 1;
      var front, last := Flatten(outputs[..n]), outputs[n];
      assert Flatten(outputs) == front + last;
      SortedConcat(front, last);
      FlattenOrder(outputs[..n]);
      assert forall i :: 0 <= i < n ==> outputs[..n][i] == outputs[i];
      forall i | 0 <= i < |outputs| ensures Sorted(outputs[i]) && Content(outputs[i]) <= Content(Flatten(outputs)) {
        assert i < n ==> Content(outputs[..n][i]) <= Content(front);
      }
      forall i, j, e, f | 0 <= i < j < |outputs| && e in outputs[i] && f in outputs[j] ensures Before(e.ik, f.ik) {
        if j == n {
          assert e in Content(outputs[..n][i]);
          assert e in Content(front);
        } else {
          assert e in outputs[..n][i] && f in outputs[..n][j];
        }
      }
      forall e | e in Flatten(outputs) ensures exists i :: 0 <= i < |outputs| && e in outputs[i] {
        if e in front {
          var i :| 0 <= i < n && e in outputs[..n][i];
          assert e in outputs[i];
        } else {
          assert e in outputs[n];
        }
      }
    }
  }

  lemma SortedConcat(a: seq<Entry>, b: seq<Entry>)
    requires Sorted(a + b)
    ensures Sorted(a) && Sorted(b)
    ensures forall e, f :: e in a && f in b ==> Before(e.ik, f.ik)
  {
    assert forall i :: 0 <= i < |a| ==> (a + b)[i] == a[i];
    assert forall i :: 0 <= i < |b| ==> (a + b)[|a| + i] == b[i];
    forall e, f | e in a && f in b ensures Before(e.ik, f.ik) {
      var i :| 0 <= i < |a| && a[i] == e;
      var j :| 0 <= j < |b| && b[j] == f;
      assert Before((a + b)[i].ik, (a + b)[|a| + j].ik);
    }
  }

  /** Tables made from the outputs of the drop loop are what the compaction step installs. */
  lemma TablesAreOutputs(v: Version, level: nat, in0: set<File>, in1: set<File>, ss: nat, input: seq<Entry>,
                         outputs: seq<seq<Entry>>, outs: seq<File>, next: nat)
    requires Content(input) == Inputs(in0, in1) && (forall e :: e in input ==> e.ik.seqno <= MAX_SEQUENCE)
    requires (forall i :: 0 <= i < |outputs| ==> outputs[i] != []) && Sorted(Flatten(outputs))
    requires forall e :: e in Flatten(outputs) <==> e in input && !Dropped(v, level, Content(input), ss, e)
    requires |outs| == |outputs|
    requires forall i :: 0 <= i < |outs| ==> outs[i] == TableOf(next + i, outs[i].size, outputs[i])
    ensures CompactionOutputs(v, level, in0, in1, ss, outs, next)
  {
    hide *;
    FlattenOrder(outputs);
    forall i | 0 <= i < |outs| ensures FileOk(outs[i]) && outs[i].number == next + i && outs[i].entries == outputs[i] {
      TableFileOk(input, Flatten(outputs), outputs[i], next + i, outs[i].size);
    }
    forall i, j | 0 <= i < j < |outs| ensures Before(outs[i].largest, outs[j].smallest) {
      assert outputs[i][|outputs[i]| - 1] in outputs[i] && outputs[j][0] in outputs[j];
      TableEnds(next + i, outs[i].size, outputs[i]);
      TableEnds(next + j, outs[j].size, outputs[j]);
    }
    OutputContent(outputs, outs);
    KeptContent(v, level, in0, in1, ss, input, Flatten(outputs));
    OutputsIntro(v, level, in0, in1, ss, outs, next);
  }

  lemma TableFileOk(input: seq<Entry>, all: seq<Entry>, part: seq<Entry>, number: nat, size: nat)
    requires part != [] && Sorted(part) && Content(part) <= Content(all)
    requires (forall e :: e in all ==> e in input) && forall e :: e in input ==> e.ik.seqno <= MAX_SEQUENCE
    ensures FileOk(TableOf(number, size, part)) && TableOf(number, size, part).number == number
    ensures TableOf(number, size, part).entries == part
  {
    forall e | e in part ensures e.ik.seqno <= MAX_SEQUENCE {
      assert e in Content(part) && e in Content(all);
    }
  }

  lemma TableEnds(number: nat, size: nat, part: seq<Entry>)
    requires part != []
    ensures TableOf(number, size, part).smallest == part[0].ik && TableOf(number, size, part).largest == part[|part| - 1].ik
  {
  }

  lemma KeptContent(v: Version, level: nat, in0: set<File>, in1: set<File>, ss: nat, input: seq<Entry>, kept: seq<Entry>)
    requires Content(input) == Inputs(in0, in1)
    requires forall e :: e in kept <==> e in input && !Dropped(v, level, Content(input), ss, e)
    ensures Content(kept) == Inputs(in0, in1) - DropSet(v, level, in0, in1, ss)
  {
    hide Dropped, Inputs;
    assert forall e :: e in input <==> e in Content(input);
  }

  lemma OutputsIntro(v: Version, level: nat, in0: set<File>, in1: set<File>, ss: nat, outs: seq<File>, next: nat)
    requires forall i :: 0 <= i < |outs| ==> FileOk(outs[i]) && outs[i].number == next + i
    requires forall i, j :: 0 <= i < j < |outs| ==> Before(outs[i].largest, outs[j].smallest)
    requires LevelContent(outs) == Inputs(in0, in1) - DropSet(v, level, in0, in1, ss)
    ensures CompactionOutputs(v, level, in0, in1, ss, outs, next)
  {
    hide FileOk, Before, LevelContent, Inputs, DropSet;
  }

  lemma OutputContent(outputs: seq<seq<Entry>>, outs: seq<File>)
    requires |outs| == |outputs| && forall i :: 0 <= i < |outs| ==> outs[i].entries == outputs[i]
    requires forall i :: 0 <= i < |outputs| ==> Content(outputs[i]) <= Content(Flatten(outputs))
    requires forall e :: e in Flatten(outputs) ==> exists i :: 0 <= i < |outputs| && e in outputs[i]
    ensures LevelContent(outs) == Content(Flatten(outputs))
  {
    forall e | e in LevelContent(outs) ensures e in Content(Flatten(outputs)) {
      var f :| f in Files(outs) && e in f.entries;
      var i :| 0 <= i < |outs| && outs[i] == f;
      assert e in Content(outputs[i]);
    }
    forall e | e in Content(Flatten(outputs)) ensures e in LevelContent(outs) {
      var i :| 0 <= i < |outputs| && e in outputs[i];
      assert outs[i] in Files(outs) && e in outs[i].entries;
    }
  }

  // ---------------------------------------------------------------- compaction inputs

  /** Different files of a well-formed version share no internal key. */
  lemma InputsDistinct(v: Version, level: nat, in0: seq<File>, in1: seq<File>)
    requires VersionOk(v) && level + 1 < NUM_LEVELS && UniqueSeqnos(All(v)) && NoDups(in0) && NoDups(in1)
    requires Files(in0) <= Files(v[level]) && Files(in1) <= Files(v[level + 1])
    ensures DistinctKeys(in0 + in1) && forall f :: f in in0 + in1 ==> FileOk(f)
  {
    var fs := in0 + in1;
    forall f | f in fs ensures FileOk(f) {
      FileOkIn(v, level, in0, in1, f);
    }
    forall i, j, e, f | 0 <= i < j < |fs| && e in fs[i].entries && f in fs[j].entries ensures e.ik != f.ik {
      var a, b := fs[i], fs[j];
      assert i < |in0| ==> a == in0[i];
      assert i >= |in0| ==> a == in1[i - |in0|];
      assert j < |in0| ==> b == in0[j];
      assert j >= |in0| ==> b == in1[j - |in0|];
      var l, m := if i < |in0| then level else level + 1, if j < |in0| then level else level + 1;
      assert a in Files(in0) || a in Files(in1);
      assert b in Files(in0) || b in Files(in1);
      assert i < |in0| ==> a in Files(in0);
      assert i >= |in0| ==> a in Files(in1);
      assert j < |in0| ==> b in Files(in0);
      assert j >= |in0| ==> b in Files(in1);
      hide *;
      DistinctPair(v, l, a, m, b, e, f);
    }
  }

  lemma FileOkIn(v: Version, level: nat, in0: seq<File>, in1: seq<File>, f: File)
    requires VersionOk(v) && level + 1 < NUM_LEVELS && f in in0 + in1
    requires Files(in0) <= Files(v[level]) && Files(in1) <= Files(v[level + 1])
    ensures FileOk(f)
  {
    assert f in Files(in0) || f in Files(in1);
    LevelReady(v, level);
    LevelReady(v, level + 1);
  }

  lemma DistinctPair(v: Version, l: nat, a: File, m: nat, b: File, e: Entry, f: Entry)
    requires VersionOk(v) && l <= m < NUM_LEVELS && a in Files(v[l]) && b in Files(v[m]) && (l == m ==> a != b)
    requires e in a.entries && f in b.entries
    ensures e.ik != f.ik
  {
    LevelReady(v, l);
    LevelReady(v, m);
    assert e in LevelContent(v[l]) && f in LevelContent(v[m]);
    if l < m {
      assert NewerThan(LevelContent(v[l]), LevelContent(v[m]));
    } else if l == 0 {
      Level0Pair(v[0], a, b, e, f);
    } else {
      hide VersionOk;
      SortedPair(v[l], a, b, e, f);
    }
  }

  lemma SortedPair(files: seq<File>, a: File, b: File, e: Entry, f: Entry)
    requires LevelSorted(files) && a in files && b in files && a != b && FileOk(a) && FileOk(b)
    requires e in a.entries && f in b.entries
    ensures e.ik != f.ik
  {
    PairsFromSorted(files, a, b);
    InRange(a, e);
    InRange(b, f);
  }

  // ---------------------------------------------------------------- the database object

  /** The parts of a configuration that decide when and where compactions happen, never what they mean. */
  datatype Options = Options(
    maxGrandparentBytes: nat,
    expandedLimit: nat,
    tableSize: nat -> nat,
    stopBefore: nat -> bool,
    full: nat -> bool)

  class DBImpl {
    var s: Db

    constructor ()
      ensures Inv(s) && s == INIT
    {
      s := INIT;
      new;
      InitInv();
    }

    /** `DBImpl::Write` for one batch. The code never checks that sequence numbers run out. */
    method Write(ops: seq<(UserKey, Op)>)
      requires Inv(s) && s.lastSequence + |ops| < MAX_SEQUENCE
      modifies this
      ensures Inv(s) && NextWrite(old(s), ops, s)
      ensures History(s) == old(History(s)) + BatchEntries(Batch(old(s).lastSequence + 1, ops))
      ensures s.lastSequence == old(s).lastSequence + |ops|
      ensures forall k, i: nat :: LastOn(ops, k, i) ==>
                ValueOf(HistoryFind(History(s), k, s.lastSequence)) == if ops[i].1.Put? then Some(ops[i].1.value) else None
      ensures forall k :: !Names(ops, k) ==>
                ValueOf(HistoryFind(History(s), k, s.lastSequence)) == ValueOf(HistoryFind(History(old(s)), k, old(s).lastSequence))
      ensures forall k, snapshot: nat :: snapshot <= old(s).lastSequence ==>
                HistoryFind(History(s), k, snapshot) == HistoryFind(History(old(s)), k, snapshot)
    {
      hide *;
      CurrentLog(s);
      ghost var was := s;
      var b := Batch(s.lastSequence + 1, ops);
      s := s.(logs := s.logs[s.logFile := s.logs[s.logFile] + [b]],
              mem := InsertAll(s.mem, BatchEntries(b)),
              lastSequence := s.lastSequence + |ops|);
      WriteIsNext(was, ops, s);
      WriteKeeps(was, ops, s);
      WriteReads(was, ops, s);
    }

    /** The last branch of `MakeRoomForWrite`: a new log and memtable. */
    method SwitchMemtable()
      requires Inv(s) && s.imm.None?
      modifies this
      ensures Inv(s) && NextSwitch(old(s), s) && History(s) == old(History(s))
    {
      hide Inv, History;
      ghost var was := s;
      s := s.(logs := s.logs[s.nextFile := []], logFile := s.nextFile, nextFile := s.nextFile + 1,
              imm := Some(s.mem), mem := []);
      SwitchKeeps(was, s);
    }

    /** `CompactMemTable`: writes the immutable memtable as a table and installs it. */
    method CompactMemTable(options: Options) returns (p: nat)
      requires Inv(s) && s.imm.Some?
      modifies this
      ensures Inv(s) && NextFlush(old(s), p, options.tableSize(0), s) && History(s) == old(History(s))
    {
      hide *;
      InvParts(s);
      FilesParts(s);
      DurableNumbers(s);
      LogIsImm(s);
      ghost var was := s;
      var size := options.tableSize(0);
      p := PickLevel(s, size, options.maxGrandparentBytes);
      var e := FlushEdit(s, p, size);
      FlushEditOk(s, p, size);
      NewNumbersInstallable(s.v, s.nextFile, e, s.nextFile + 1);
      var w := Install(s.v, e);
      var flushedLog := s.logs[s.logNumber];
      s := s.(v := w, imm := None, logNumber := s.logFile, nextFile := s.nextFile + 1, manifest := s.manifest + [e],
              flushed := s.flushed + LogEntries(flushedLog),
              logs := map n | n in s.logs && n >= s.logFile :: s.logs[n]);
      FlushIsNext(was, p, size, s);
      FlushKeeps(was, p, size, s);
    }

    /** The merge, the drop rule, the output tables and their installation for chosen inputs. */
    method PerformCompaction(level: nat, in0: seq<File>, in1: seq<File>, options: Options) returns (outs: seq<File>)
      requires Inv(s) && level + 1 < NUM_LEVELS && |s.v| == NUM_LEVELS
      requires InputsOk(s.v, level, Files(in0), Files(in1)) && NoDups(in0) && NoDups(in1)
      modifies this
      ensures NextCompact(old(s), level, Files(in0), Files(in1), outs, s)
      ensures NoResurrection(old(s).v, level, Files(in0), Files(in1), SmallestSnapshot(old(s))) ==>
                Inv(s) && History(s) == old(History(s))
    {
      hide *;
      ghost var was := s;
      InvParts(s);
      FilesParts(s);
      FlushedUnique(s);
      DurableNumbers(s);
      var ss := SmallestSnapshot(s);
      SnapshotFloor(s);
      SequenceBound(s);
      InputsInLevels(s.v, level, Files(in0), Files(in1));
      outs := CompactedTables(s.v, level, in0, in1, ss, s.nextFile, options);
      var e := CompactEdit(s, level, Files(in0), Files(in1), outs);
      OutputNumbers(s.v, level, Files(in0), Files(in1), ss, outs, s.nextFile);
      CompactNumbers(s, level, Files(in0), Files(in1), outs);
      NewNumbersInstallable(s.v, s.nextFile, e, s.nextFile + |outs|);
      var w := Install(s.v, e);
      s := s.(v := w, nextFile := s.nextFile + |outs|, floor := ss, manifest := s.manifest + [e]);
      CompactIsNext(was, level, Files(in0), Files(in1), outs, s);
      if NoResurrection(was.v, level, Files(in0), Files(in1), ss) {
        CompactKeeps(was, level, Files(in0), Files(in1), outs, s);
      }
    }

    /** A background compaction that starts from one picked file: a move if that is all there is to do. */
    method BackgroundCompaction(level: nat, picked: File, options: Options) returns (a: Action)
      requires Inv(s) && level + 1 < NUM_LEVELS && |s.v| == NUM_LEVELS && picked in s.v[level]
      modifies this
      ensures a.Move? || a.Compact?
      ensures a.Move? ==> a.file == picked && NextMove(old(s), level, picked, s) && Inv(s) && History(s) == old(History(s))
      ensures a.Compact? ==> NextCompact(old(s), level, a.in0, a.in1, a.outs, s) && picked in a.in0
      ensures a.Compact? && NoResurrection(old(s).v, level, a.in0, a.in1, SmallestSnapshot(old(s))) ==>
                Inv(s) && History(s) == old(History(s))
    {
      hide *;
      ghost var was := s;
      InvParts(s);
      FilesParts(s);
      var in0, in1 := PickCompaction(s.v, level, picked, options.expandedLimit);
      var trivial := IsTrivialMove(s.v, level, in0, in1, options.maxGrandparentBytes);
      if trivial {
        var f := in0[0];
        SingleInput(in0, in1);
        MoveSource(s.v, level, f);
        var e := MoveEdit(s, level, f);
        MoveInstallable(s, level, f);
        var w := Install(s.v, e);
        s := s.(v := w, manifest := s.manifest + [e]);
        MoveIsNext(was, level, f, s);
        MoveKeeps(was, level, f, s);
        a := Move(level, f);
      } else {
        var outs := PerformCompaction(level, in0, in1, options);
        FilesMember(in0, picked);
        a := Compact(level, Files(in0), Files(in1), outs);
      }
    }

    /** `DBImpl::Get`. */
    method Get(k: UserKey, snapshot: Option<nat>) returns (value: Option<string>)
      requires Inv(s) && (snapshot.Some? ==> snapshot.value in s.snapshots)
      ensures value == ValueOf(HistoryFind(History(s), k, if snapshot.Some? then snapshot.value else s.lastSequence))
    {
      hide *;
      value := Store.Get(s, k, snapshot);
    }

    /** `GetSnapshot` and `ReleaseSnapshot`: appending at the end of the list keeps its head the oldest. */
    method TakeSnapshot() returns (snapshot: nat)
      requires Inv(s)
      modifies this
      ensures Inv(s) && s == old(s).(snapshots := old(s).snapshots + [snapshot]) && snapshot == s.lastSequence
      ensures History(s) == old(History(s))
    {
      hide Inv, History;
      ghost var was := s;
      snapshot := s.lastSequence;
      s := s.(snapshots := s.snapshots + [snapshot]);
      assert Next(was, Action.TakeSnapshot, s);
      SnapshotKeeps(was, s);
    }

    method ReleaseSnapshot(i: nat)
      requires Inv(s) && i < |s.snapshots|
      modifies this
      ensures Inv(s) && s == old(s).(snapshots := old(s).snapshots[..i] + old(s).snapshots[i + 1..])
      ensures History(s) == old(History(s))
    {
      hide Inv, History;
      ghost var was := s;
      s := s.(snapshots := s.snapshots[..i] + s.snapshots[i + 1..]);
      assert Next(was, Action.ReleaseSnapshot(i), s);
      SnapshotKeeps(was, s);
    }

    /** Losing the volatile state and opening the database again: `VersionSet::Recover`, `DBImpl::Recover`
        and the rest of `DB::Open`. `cut` says how much of the logs has survived. */
    method CrashAndRecover(cut: Cut, full: nat -> bool, sizes: nat -> nat)
      requires Inv(s) && CutOk(s, cut)
      modifies this
      ensures Inv(s) && Survives(old(s), cut, s)
    {
      hide *;
      ghost var was := s;
      InvParts(s);
      DurableParts(s);
      ManifestNumbers(s);
      RecoverableManifest(s);
      LogIsImmOrNone(s);
      EditsInRange(s.manifest);
      var recovered := Manifest.Recover(s.manifest);
      DescribesUnique(s.manifest, recovered.value.v, s.v);
      CutFits(s, cut);
      var log := OlderLog(s)[..cut.older] + s.logs[s.logFile][..cut.newer];
      SurvivingIs(s, cut, log);
      var parts, tables, next := RecoverLogs(log, recovered.value.nextFile, full, sizes);
      var newLog := next;
      for n := 0 to s.nextFile
        invariant newLog >= next && forall m :: 0 <= m < n && m in s.logs ==> m < newLog
      {
        if n in s.logs && newLog <= n {
          newLog := n + 1;
        }
      }
      var last := Max(recovered.value.lastSequence, MaxSequence(log));
      var e := RecoveryEdit(tables, newLog, last);
      CrashInstallable(s, parts, tables, recovered.value.nextFile, newLog, last);
      var w := Install(recovered.value.v, e);
      s := Db(w, [], None, last, [], map[newLog := []], newLog, newLog, newLog + 1,
              [SnapshotEdit(recovered.value.v), e], s.flushed + LogEntries(log), s.floor);
      CrashIsNext(was, cut, log, parts, tables, newLog, s);
      CrashKeeps(was, cut, parts, tables, newLog, s);
    }
  }

  lemma EditsInRange(manifest: seq<Edit>)
    requires ManifestOk(manifest)
    ensures forall i :: 0 <= i < |manifest| ==> EditOk(manifest[i])
  {
    hide EditOk, AllFresh;
  }

  lemma CurrentLog(db: Db)
    requires Inv(db)
    ensures db.logFile in db.logs
  {
  }

  lemma WriteIsNext(db: Db, ops: seq<(UserKey, Op)>, db2: Db)
    requires db.logFile in db.logs && db.lastSequence + |ops| < MAX_SEQUENCE
    requires db2 == db.(logs := db.logs[db.logFile := db.logs[db.logFile] + [Batch(db.lastSequence + 1, ops)]],
                        mem := InsertAll(db.mem, BatchEntries(Batch(db.lastSequence + 1, ops))),
                        lastSequence := db.lastSequence + |ops|)
    ensures NextWrite(db, ops, db2)
  {
    hide InsertAll, BatchEntries;
  }

  ghost predicate LevelPicked(db: Db, p: nat, size: nat) {
    && p < NUM_LEVELS && db.imm.Some?
    && (db.imm.value != [] ==>
          var f := TableOf(db.nextFile, size, db.imm.value);
          Picked(db.v, p, f.smallest.ukey, f.largest.ukey))
  }

  method PickLevel(db: Db, size: nat, maxBytes: nat) returns (p: nat)
    requires db.imm.Some? && VersionOk(db.v)
    ensures LevelPicked(db, p, size)
  {
    hide VersionOk;
    p := 0;
    if db.imm.value != [] {
      var f := TableOf(db.nextFile, size, db.imm.value);
      p := PickLevelForMemTableOutput(db.v, f.smallest.ukey, f.largest.ukey, maxBytes);
    }
  }

  lemma FlushEditOk(db: Db, p: nat, size: nat)
    requires LevelPicked(db, p, size)
    ensures EditOk(FlushEdit(db, p, size)) && NewNumbers(FlushEdit(db, p, size), db.nextFile, db.nextFile + 1)
  {
  }

  lemma FlushIsNext(db: Db, p: nat, size: nat, db2: Db)
    requires LogsOk(db) && LevelPicked(db, p, size) && Installs(db.v, FlushEdit(db, p, size), db2.v)
    requires db2 == db.(v := db2.v, imm := None, logNumber := db.logFile, nextFile := db.nextFile + 1,
                        manifest := db.manifest + [FlushEdit(db, p, size)], flushed := db.flushed + ImmHistory(db),
                        logs := map n | n in db.logs && n >= db.logFile :: db.logs[n])
    ensures NextFlush(db, p, size, db2)
  {
    hide LogsOk, Installs, ImmHistory;
  }

  lemma LogIsImm(db: Db)
    requires LogsOk(db) && db.imm.Some?
    ensures db.logNumber in db.logs && ImmHistory(db) == LogEntries(db.logs[db.logNumber])
  {
  }

  // ---------------------------------------------------------------- compaction helpers

  lemma SequenceBound(db: Db)
    requires LogsOk(db) && HistoryOk(db)
    ensures db.lastSequence < MAX_SEQUENCE
  {
  }

  /** Everything between choosing the inputs and installing the outputs. */
  method CompactedTables(v: Version, level: nat, in0: seq<File>, in1: seq<File>, ss: nat, next: nat, options: Options)
    returns (outs: seq<File>)
    requires VersionOk(v) && |v| == NUM_LEVELS && level + 1 < NUM_LEVELS && UniqueSeqnos(All(v)) && ss < MAX_SEQUENCE
    requires NoDups(in0) && NoDups(in1) && Files(in0) <= Files(v[level]) && Files(in1) <= Files(v[level + 1])
    ensures CompactionOutputs(v, level, Files(in0), Files(in1), ss, outs, next)
  {
    hide *;
    InputsDistinct(v, level, in0, in1);
    var input := MergeInputs(in0 + in1);
    MergedInputs(in0, in1, input);
    InputBound(in0 + in1, input);
    var c := new Compaction(v, level);
    var outputs := DoCompactionWork(c, input, ss, options.stopBefore, options.full);
    outs := MakeTables(outputs, next, options.tableSize);
    TableSizes(outputs, outs, next, options.tableSize);
    TablesAreOutputs(v, level, Files(in0), Files(in1), ss, input, outputs, outs, next);
  }

  lemma MergedInputs(in0: seq<File>, in1: seq<File>, input: seq<Entry>)
    requires Content(input) == LevelContent(in0 + in1)
    ensures Content(input) == Inputs(Files(in0), Files(in1))
  {
    FilesAppend(in0, in1);
  }

  lemma InputBound(fs: seq<File>, input: seq<Entry>)
    requires (forall f :: f in fs ==> FileOk(f)) && Content(input) == LevelContent(fs)
    ensures forall e :: e in input ==> e.ik.seqno <= MAX_SEQUENCE
  {
    forall e | e in input ensures e.ik.seqno <= MAX_SEQUENCE {
      assert e in Content(input);
      var f :| f in Files(fs) && e in f.entries;
    }
  }

  lemma TableSizes(outputs: seq<seq<Entry>>, outs: seq<File>, next: nat, sizes: nat -> nat)
    requires |outs| == |outputs| && forall i :: 0 <= i < |outputs| ==> outputs[i] != []
    requires forall i :: 0 <= i < |outs| ==> outs[i] == TableOf(next + i, sizes(i), outputs[i])
    ensures forall i :: 0 <= i < |outs| ==> outs[i] == TableOf(next + i, outs[i].size, outputs[i])
  {
  }

  lemma FilesMember(fs: seq<File>, f: File)
    requires f in fs
    ensures f in Files(fs)
  {
  }

  lemma CompactIsNext(db: Db, level: nat, in0: set<File>, in1: set<File>, outs: seq<File>, db2: Db)
    requires |db.v| == NUM_LEVELS && level + 1 < NUM_LEVELS && InputsOk(db.v, level, in0, in1)
    requires CompactionOutputs(db.v, level, in0, in1, SmallestSnapshot(db), outs, db.nextFile)
    requires Installs(db.v, CompactEdit(db, level, in0, in1, outs), db2.v)
    requires db2 == db.(v := db2.v, nextFile := db.nextFile + |outs|, floor := SmallestSnapshot(db),
                        manifest := db.manifest + [CompactEdit(db, level, in0, in1, outs)])
    ensures NextCompact(db, level, in0, in1, outs, db2)
  {
    hide InputsOk, CompactionOutputs, Installs, CompactEdit, SmallestSnapshot;
  }

  /** One file at this level, none below it, and not too many bytes two levels down. */
  method IsTrivialMove(v: Version, level: nat, in0: seq<File>, in1: seq<File>, maxBytes: nat) returns (r: bool)
    requires |v| == NUM_LEVELS && level + 1 < NUM_LEVELS && in0 != []
    ensures r <==> |in0| == 1 && in1 == [] && (level + 2 < NUM_LEVELS ==>
              TotalSize(Overlapping(v[level + 2], Some(in0[0].smallest.ukey), Some(in0[0].largest.ukey))) <= maxBytes)
  {
    hide Overlapping, TotalSize, Overlaps;
    var bytes := 0;
    if level + 2 < NUM_LEVELS {
      var start, stop := GetRange(in0 + in1);
      var grandparents, b, e := GetOverlappingInputs(v[level + 2], false, Some(start.ukey), Some(stop.ukey));
      bytes := TotalSize(grandparents);
    }
    r := |in0| == 1 && |in1| == 0 && bytes <= maxBytes;
  }

  lemma SingleInput(in0: seq<File>, in1: seq<File>)
    requires |in0| == 1 && in1 == []
    ensures Files(in0) == {in0[0]} && Files(in1) == {}
  {
  }

  lemma MoveInstallable(db: Db, level: nat, f: File)
    requires Inv(db) && level + 1 < NUM_LEVELS && |db.v| == NUM_LEVELS && f in db.v[level]
    ensures EditOk(MoveEdit(db, level, f))
    ensures forall l :: 0 <= l < NUM_LEVELS ==> Ordered(db.v[l]) && FreshAt(Files(db.v[l]), MoveEdit(db, level, f), l)
  {
    hide *;
    InvParts(db);
    FilesParts(db);
    VersionOrdered(db.v);
    DurableNumbers(db);
    MoveEditNumbers(db, level, f);
    forall l | 0 <= l < NUM_LEVELS ensures FreshAt(Files(db.v[l]), MoveEdit(db, level, f), l) {
      MoveFreshLive(db, level, f, l);
    }
  }

  lemma MoveFreshLive(db: Db, level: nat, f: File, l: nat)
    requires level + 1 < |db.v| && l < |db.v| && f in db.v[level] && NumbersOk(db.v, db.nextFile)
    ensures FreshAt(Files(db.v[l]), MoveEdit(db, level, f), l)
  {
    MoveEditAt(db, level, f, l);
    forall g | g in Files(db.v[l]) && l == level + 1 ensures g.number != f.number { }
  }

  lemma MoveIsNext(db: Db, level: nat, f: File, db2: Db)
    requires |db.v| == NUM_LEVELS && level + 1 < NUM_LEVELS && InputsOk(db.v, level, {f}, {})
    requires Installs(db.v, MoveEdit(db, level, f), db2.v)
    requires db2 == db.(v := db2.v, manifest := db.manifest + [MoveEdit(db, level, f)])
    ensures NextMove(db, level, f, db2)
  {
    hide InputsOk, Installs, MoveEdit;
  }

  // ---------------------------------------------------------------- recovery helpers

  lemma RecoverableManifest(db: Db)
    requires DurableOk(db)
    ensures LastLogNumber(db.manifest).Some? && LastNextFile(db.manifest).Some? && LastSequence(db.manifest).Some?
  {
  }

  lemma LogIsImmOrNone(db: Db)
    requires LogsOk(db)
    ensures db.logNumber in db.logs && db.logFile in db.logs && forall n :: n in db.logs ==> n < db.nextFile
  {
  }

  lemma CutFits(db: Db, cut: Cut)
    requires LogsOk(db) && CutOk(db, cut)
    ensures cut.older <= |OlderLog(db)| && cut.newer <= |db.logs[db.logFile]|
  {
  }

  lemma SurvivingIs(db: Db, cut: Cut, log: seq<Batch>)
    requires LogsOk(db) && CutOk(db, cut) && log == OlderLog(db)[..cut.older] + db.logs[db.logFile][..cut.newer]
    ensures log == SurvivingLog(db, cut)
  {
  }

  /** `RecoverLogFile`: batches go into a memtable, which becomes a level-0 table whenever it is full
      and at the end; an empty memtable uses up a number but leaves no table. */
  method RecoverLogs(log: seq<Batch>, first: nat, full: nat -> bool, sizes: nat -> nat)
    returns (parts: seq<seq<Entry>>, tables: seq<File>, next: nat)
    ensures Flatten(parts) == LogEntries(log) && RecoveredTables(parts, tables, first) && next >= first
    ensures forall f :: f in tables ==> f.number < next
  {
    parts, tables, next := [], [], first;
    var mem: seq<Entry>, part: seq<Entry> := [], [];
    RecoverStart(log, first);
    hide *;
    for i := 0 to |log|
      invariant next >= first && mem == InsertAll([], part)
      invariant RecoveredTables(parts, tables, first) && forall f :: f in tables ==> f.number < next
      invariant Flatten(parts) + part == LogEntries(log[..i])
    {
      var es := BatchEntries(log[i]);
      InsertAllConcat([], part, es);
      LogNext(log, i);
      Reassociate(Flatten(parts), part, es);
      mem, part := InsertAll(mem, es), part + es;
      if full(i) {
        parts, tables := FlushPart(parts, tables, first, next, mem, part, sizes(i));
        mem, part, next := [], [], next + 1;
        RecoverStart(log, first);
      }
    }
    assert log[..|log|] == log;
    parts, tables := FlushPart(parts, tables, first, next, mem, part, sizes(|log|));
    next := next + 1;
  }

  lemma RecoverStart(log: seq<Batch>, first: nat)
    ensures InsertAll([], []) == [] && RecoveredTables([], [], first) && Flatten([]) + [] == LogEntries(log[..0])
  {
  }

  lemma LogNext(log: seq<Batch>, i: nat)
    requires i < |log|
    ensures LogEntries(log[..i + 1]) == LogEntries(log[..i]) + BatchEntries(log[i])
  {
    assert log[..i + 1][..i] == log[..i];
  }

  lemma {:induction false} InsertAllConcat(es: seq<Entry>, a: seq<Entry>, b: seq<Entry>)
    ensures InsertAll(es, a + b) == InsertAll(InsertAll(es, a), b)
    decreases |a|
  {
    if a == [] {
      assert a + b == b;
    } else {
      assert (a + b)[0] == a[0] && (a + b)[1..] == a[1..] + b;
      InsertAllConcat(Insert(es, a[0]), a[1..], b);
    }
  }

  method FlushPart(parts: seq<seq<Entry>>, tables: seq<File>, first: nat, next: nat, mem: seq<Entry>, part: seq<Entry>, size: nat)
    returns (parts2: seq<seq<Entry>>, tables2: seq<File>)
    requires next >= first && RecoveredTables(parts, tables, first) && mem == InsertAll([], part)
    requires forall f :: f in tables ==> f.number < next
    ensures RecoveredTables(parts2, tables2, first) && Flatten(parts2) == Flatten(parts) + part
    ensures forall f :: f in tables2 ==> f.number < next + 1
  {
    hide *;
    EmptyMemtable(mem, part);
    if mem == [] {
      assert Flatten(parts) + part == Flatten(parts);
      return parts, tables;
    }
    parts2, tables2 := parts + [part], tables + [TableOf(next, size, mem)];
    FlattenAppend(parts, part);
    OneMoreTable(parts, tables, first, next, mem, part, size);
    TableNumber(next, size, mem);
  }

  lemma EmptyMemtable(mem: seq<Entry>, part: seq<Entry>)
    requires mem == InsertAll([], part)
    ensures mem == [] <==> part == []
  {
    NoContent(mem);
    NoContent(part);
    assert Content(mem) == {} + Content(part);
  }

  lemma FlattenAppend(parts: seq<seq<Entry>>, part: seq<Entry>)
    ensures Flatten(parts + [part]) == Flatten(parts) + part
  {
    assert (parts + [part])[..|parts|] == parts;
  }

  lemma TableNumber(number: nat, size: nat, es: seq<Entry>)
    requires es != []
    ensures TableOf(number, size, es).number == number && TableOf(number, size, es).size == size
  {
  }

  lemma OneMoreTable(parts: seq<seq<Entry>>, tables: seq<File>, first: nat, next: nat, mem: seq<Entry>, part: seq<Entry>, size: nat)
    requires next >= first && RecoveredTables(parts, tables, first) && mem == InsertAll([], part) && mem != [] && part != []
    requires forall f :: f in tables ==> f.number < next
    ensures RecoveredTables(parts + [part], tables + [TableOf(next, size, mem)], first)
  {
    hide InsertAll;
    TableNumber(next, size, mem);
    assert forall i :: 0 <= i < |tables| ==> tables[i] in tables;
    hide TableOf;
  }

  lemma CrashInstallable(db: Db, parts: seq<seq<Entry>>, tables: seq<File>, next: nat, newLog: nat, last: nat)
    requires Inv(db) && NumbersOk(db.v, next) && RecoveredTables(parts, tables, next)
    requires forall f :: f in tables ==> f.number < newLog
    ensures |db.v| == NUM_LEVELS && EditOk(RecoveryEdit(tables, newLog, last))
    ensures forall l :: 0 <= l < NUM_LEVELS ==>
              Ordered(db.v[l]) && FreshAt(Files(db.v[l]), RecoveryEdit(tables, newLog, last), l)
  {
    hide *;
    InvParts(db);
    FilesParts(db);
    RecoveryAdds(tables, newLog, last);
    RecoveryNumbers(parts, tables, next, newLog, last);
    NewNumbersInstallable(db.v, next, RecoveryEdit(tables, newLog, last), newLog + 1);
  }

  lemma CrashIsNext(db: Db, cut: Cut, log: seq<Batch>, parts: seq<seq<Entry>>, tables: seq<File>, newLog: nat, db2: Db)
    requires LogsOk(db) && CutOk(db, cut) && log == SurvivingLog(db, cut)
    requires LastNextFile(db.manifest).Some? && LastSequence(db.manifest).Some?
    requires Flatten(parts) == LogEntries(log) && RecoveredTables(parts, tables, LastNextFile(db.manifest).value + 1)
    requires (forall n :: n in db.logs ==> n < newLog) && (forall f :: f in tables ==> f.number < newLog)
    requires LastNextFile(db.manifest).value < newLog
    requires var last := Max(LastSequence(db.manifest).value, MaxSequence(log));
             && Installs(db.v, RecoveryEdit(tables, newLog, last), db2.v)
             && db2 == Db(db2.v, [], None, last, [], map[newLog := []], newLog, newLog, newLog + 1,
                          [SnapshotEdit(db.v), RecoveryEdit(tables, newLog, last)], db.flushed + LogEntries(log), db.floor)
    ensures NextCrash(db, cut, parts, tables, newLog, db2)
  {
    hide LogsOk, SurvivingLog, RecoveredTables, Installs, RecoveryEdit, SnapshotEdit, LogEntries, MaxSequence, Flatten;
  }
}
