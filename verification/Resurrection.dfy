/** A run of the store that reaches a compaction which brings a deleted key back: the fault of the
    compaction inputs is not only a matter of strange versions. */
module Resurrection {
  import opened Optional
  import opened Keys
  import opened Batches
  import opened Versions
  import opened Selection
  import opened Compactions
  import opened Preservation
  import opened Manifest
  import opened Store
  import opened Steps
  import opened Recovery
  import opened Runs

  // ---------------------------------------------------------------- taking steps

  /** The part of a store the scenario looks at. */
  datatype Shape = Shape(v: Version, mem: seq<Entry>, imm: Option<seq<Entry>>, last: nat, snapshots: seq<nat>, next: nat)

  ghost function ShapeOf(db: Db): Shape {
    Shape(db.v, db.mem, db.imm, db.lastSequence, db.snapshots, db.nextFile)
  }

  lemma {:induction false} SortedUnique(a: seq<Entry>, b: seq<Entry>)
    requires Sorted(a) && Sorted(b) && Content(a) == Content(b)
    ensures a == b
  {
    NoContent(a);
    NoContent(b);
    if a != [] {
      assert a[0] in Content(b) && b != [];
      assert b[0] in Content(a);
      assert a[0] == b[0];
      assert Content(a[1..]) == Content(a) - {a[0]};
      assert Content(b[1..]) == Content(b) - {b[0]};
      SortedUnique(a[1..], b[1..]);
    }
  }

  lemma DoWrite(db: Db, ops: seq<(UserKey, Op)>, mem: seq<Entry>) returns (db2: Db)
    requires Inv(db) && db.lastSequence + |ops| < MAX_SEQUENCE && Sorted(mem)
    requires Content(mem) == Content(db.mem) + Content(BatchEntries(Batch(db.lastSequence + 1, ops)))
    ensures Next(db, Write(ops), db2) && Inv(db2)
    ensures ShapeOf(db2) == ShapeOf(db).(mem := mem, last := db.lastSequence + |ops|)
  {
    hide *;
    InvParts(db);
    db2 := WriteEnabled(db, ops);
    WriteKeeps(db, ops, db2);
    MemtableSorted(db2);
    SortedUnique(db2.mem, mem);
    WroteShape(db, ops, db2);
  }

  lemma WroteShape(db: Db, ops: seq<(UserKey, Op)>, db2: Db)
    requires NextWrite(db, ops, db2)
    ensures ShapeOf(db2) == ShapeOf(db).(mem := db2.mem, last := db.lastSequence + |ops|)
  {
    hide InsertAll, BatchEntries;
  }

  lemma MemtableSorted(db: Db)
    requires Inv(db)
    ensures Sorted(db.mem)
  {
  }

  lemma DoSwitch(db: Db) returns (db2: Db)
    requires Inv(db) && db.imm.None?
    ensures Next(db, SwitchMemtable, db2) && Inv(db2)
    ensures ShapeOf(db2) == ShapeOf(db).(mem := [], imm := Some(db.mem), next := db.nextFile + 1)
  {
    db2 := db.(logs := db.logs[db.nextFile := []], logFile := db.nextFile, nextFile := db.nextFile + 1,
               imm := Some(db.mem), mem := []);
    assert NextSwitch(db, db2);
    SwitchKeeps(db, db2);
  }

  /** Level `l` of `w` is that of `v` without `gone` and with `add`. */
  ghost predicate Changed(v: Version, l: nat, gone: set<File>, add: set<File>, w: Version) {
    l < |v| == |w| && Ordered(w[l]) && Files(w[l]) == Files(v[l]) - gone + add
  }

  lemma ChangedAt(v: Version, l: nat, gone: set<File>, add: set<File>, w: Version)
    requires Changed(v, l, gone, add, w)
    ensures l < |v| == |w| && Ordered(w[l]) && Files(w[l]) == Files(v[l]) - gone + add
  {
  }

  lemma DoFlush(db: Db, p: nat, size: nat, w: Version) returns (db2: Db)
    requires Inv(db) && db.imm.Some? && db.imm.value != [] && |db.v| == |w| == NUM_LEVELS && p < NUM_LEVELS
    requires var f := TableOf(db.nextFile, size, db.imm.value);
             && Picked(db.v, p, f.smallest.ukey, f.largest.ukey)
             && Changed(db.v, p, {}, {f}, w) && forall l :: 0 <= l < NUM_LEVELS && l != p ==> w[l] == db.v[l]
    ensures Next(db, Flush(p, size), db2) && Inv(db2)
    ensures ShapeOf(db2) == ShapeOf(db).(v := w, imm := None, next := db.nextFile + 1)
  {
    hide *;
    InvParts(db);
    FilesParts(db);
    forall l | 0 <= l < NUM_LEVELS ensures Ordered(w[l]) && Files(w[l]) == After(Files(db.v[l]), FlushEdit(db, p, size), l) {
      FlushChanged(db, p, size, w, l);
    }
    db2 := FlushEnabled(db, p, size, w);
    FlushKeeps(db, p, size, db2);
  }

  lemma FlushChanged(db: Db, p: nat, size: nat, w: Version, l: nat)
    requires VersionOk(db.v) && db.imm.Some? && db.imm.value != [] && |w| == NUM_LEVELS && p < NUM_LEVELS && l < NUM_LEVELS
    requires Changed(db.v, p, {}, {TableOf(db.nextFile, size, db.imm.value)}, w) && (l != p ==> w[l] == db.v[l])
    ensures Ordered(w[l]) && Files(w[l]) == After(Files(db.v[l]), FlushEdit(db, p, size), l)
  {
    var f, e := TableOf(db.nextFile, size, db.imm.value), FlushEdit(db, p, size);
    LevelNumbers(db.v, l);
    hide VersionOk, Ordered, TableOf;
    assert e.added == [(p, f)] && e.deleted == {};
    assert (p, f) in e.added;
    assert AddedAt(e, l) == if l == p then {f} else {};
    hide After, AddedAt, FlushEdit;
    AfterAdd(Files(db.v[l]), e, l);
  }

  lemma FlushEnabled(db: Db, p: nat, size: nat, w: Version) returns (db2: Db)
    requires LogsOk(db) && db.imm.Some? && db.imm.value != [] && |db.v| == |w| == NUM_LEVELS
    requires var f := TableOf(db.nextFile, size, db.imm.value); Picked(db.v, p, f.smallest.ukey, f.largest.ukey)
    requires forall l :: 0 <= l < NUM_LEVELS ==> Ordered(w[l]) && Files(w[l]) == After(Files(db.v[l]), FlushEdit(db, p, size), l)
    ensures NextFlush(db, p, size, db2) && Next(db, Flush(p, size), db2)
    ensures ShapeOf(db2) == ShapeOf(db).(v := w, imm := None, next := db.nextFile + 1)
  {
    hide LogsOk, Picked, After, Ordered, ImmHistory, FlushEdit, Files;
    db2 := db.(v := w, imm := None, logNumber := db.logFile, nextFile := db.nextFile + 1,
               manifest := db.manifest + [FlushEdit(db, p, size)],
               flushed := db.flushed + ImmHistory(db), logs := map n | n in db.logs && n >= db.logFile :: db.logs[n]);
  }

  lemma DoMove(db: Db, level: nat, f: File, w: Version) returns (db2: Db)
    requires Inv(db) && |db.v| == |w| == NUM_LEVELS && level + 1 < NUM_LEVELS && InputsOk(db.v, level, {f}, {})
    requires Changed(db.v, level, {f}, {}, w) && Changed(db.v, level + 1, {}, {f}, w)
    requires forall l :: 0 <= l < NUM_LEVELS && l != level && l != level + 1 ==> w[l] == db.v[l]
    ensures Next(db, Move(level, f), db2) && Inv(db2) && ShapeOf(db2) == ShapeOf(db).(v := w)
  {
    hide *;
    InvParts(db);
    FilesParts(db);
    InputsInLevels(db.v, level, {f}, {});
    forall l | 0 <= l < NUM_LEVELS ensures Ordered(w[l]) && Files(w[l]) == After(Files(db.v[l]), MoveEdit(db, level, f), l) {
      MoveChanged(db, level, f, w, l);
    }
    db2 := MoveEnabled(db, level, f, w);
    MoveKeeps(db, level, f, db2);
  }

  lemma MoveChanged(db: Db, level: nat, f: File, w: Version, l: nat)
    requires VersionOk(db.v) && |w| == NUM_LEVELS && level + 1 < NUM_LEVELS && l < NUM_LEVELS && {f} <= Files(db.v[level])
    requires Changed(db.v, level, {f}, {}, w) && Changed(db.v, level + 1, {}, {f}, w)
    requires l != level && l != level + 1 ==> w[l] == db.v[l]
    ensures Ordered(w[l]) && Files(w[l]) == After(Files(db.v[l]), MoveEdit(db, level, f), l)
  {
    hide *;
    LevelNumbers(db.v, l);
    ChangedAt(db.v, level, {f}, {}, w);
    ChangedAt(db.v, level + 1, {}, {f}, w);
    NoNumbers();
    MoveEditAt(db, level, f, l);
    if l == level {
      AfterReplace(Files(db.v[l]), {f}, {}, MoveEdit(db, level, f), l);
    } else if l == level + 1 {
      AfterReplace(Files(db.v[l]), {}, {f}, MoveEdit(db, level, f), l);
    } else {
      AfterReplace(Files(db.v[l]), {}, {}, MoveEdit(db, level, f), l);
    }
  }

  lemma MoveEnabled(db: Db, level: nat, f: File, w: Version) returns (db2: Db)
    requires |db.v| == |w| == NUM_LEVELS && level + 1 < NUM_LEVELS && InputsOk(db.v, level, {f}, {})
    requires forall l :: 0 <= l < NUM_LEVELS ==> Ordered(w[l]) && Files(w[l]) == After(Files(db.v[l]), MoveEdit(db, level, f), l)
    ensures NextMove(db, level, f, db2) && Next(db, Move(level, f), db2) && ShapeOf(db2) == ShapeOf(db).(v := w)
  {
    hide InputsOk, After, Ordered, MoveEdit, Files;
    db2 := db.(v := w, manifest := db.manifest + [MoveEdit(db, level, f)]);
  }

  lemma DoCompact(db: Db, level: nat, in0: set<File>, in1: set<File>, outs: seq<File>, w: Version) returns (db2: Db)
    requires Inv(db) && |db.v| == |w| == NUM_LEVELS && level + 1 < NUM_LEVELS && InputsOk(db.v, level, in0, in1)
    requires CompactionOutputs(db.v, level, in0, in1, SmallestSnapshot(db), outs, db.nextFile)
    requires Changed(db.v, level, in0, {}, w) && Changed(db.v, level + 1, in1, Files(outs), w)
    requires forall l :: 0 <= l < NUM_LEVELS && l != level && l != level + 1 ==> w[l] == db.v[l]
    ensures Next(db, Compact(level, in0, in1, outs), db2) && ShapeOf(db2) == ShapeOf(db).(v := w, next := db.nextFile + |outs|)
    ensures NoResurrection(db.v, level, in0, in1, SmallestSnapshot(db)) ==> Inv(db2)
  {
    InvParts(db);
    FilesParts(db);
    DurableNumbers(db);
    hide *;
    var e := CompactEdit(db, level, in0, in1, outs);
    OutputNumbers(db.v, level, in0, in1, SmallestSnapshot(db), outs, db.nextFile);
    InputsInLevels(db.v, level, in0, in1);
    forall l | 0 <= l < NUM_LEVELS ensures Ordered(w[l]) && Files(w[l]) == After(Files(db.v[l]), e, l) {
      LevelChanged(db, level, in0, in1, outs, w, l);
    }
    db2 := db.(v := w, nextFile := db.nextFile + |outs|, floor := SmallestSnapshot(db), manifest := db.manifest + [e]);
    CompactEnabled(db, level, in0, in1, outs, db2);
    if NoResurrection(db.v, level, in0, in1, SmallestSnapshot(db)) { CompactKeeps(db, level, in0, in1, outs, db2); }
    SameShape(db, db2, w, |outs|);
  }

  lemma SameShape(db: Db, db2: Db, w: Version, n: nat)
    requires db2 == db.(v := w, nextFile := db.nextFile + n, floor := db2.floor, manifest := db2.manifest)
    ensures ShapeOf(db2) == ShapeOf(db).(v := w, next := db.nextFile + n)
  {
  }

  lemma CompactEnabled(db: Db, level: nat, in0: set<File>, in1: set<File>, outs: seq<File>, db2: Db)
    requires |db.v| == |db2.v| == NUM_LEVELS && level + 1 < NUM_LEVELS && InputsOk(db.v, level, in0, in1)
    requires CompactionOutputs(db.v, level, in0, in1, SmallestSnapshot(db), outs, db.nextFile)
    requires var e := CompactEdit(db, level, in0, in1, outs);
             && (forall l :: 0 <= l < NUM_LEVELS ==> Ordered(db2.v[l]) && Files(db2.v[l]) == After(Files(db.v[l]), e, l))
             && db2 == db.(v := db2.v, nextFile := db.nextFile + |outs|, floor := SmallestSnapshot(db), manifest := db.manifest + [e])
    ensures NextCompact(db, level, in0, in1, outs, db2) && Next(db, Compact(level, in0, in1, outs), db2)
  {
    hide InputsOk, CompactionOutputs, SmallestSnapshot, CompactEdit, Ordered, After, Files;
  }

  lemma LevelChanged(db: Db, level: nat, in0: set<File>, in1: set<File>, outs: seq<File>, w: Version, l: nat)
    requires VersionOk(db.v) && NumbersOk(db.v, db.nextFile) && |w| == NUM_LEVELS && level + 1 < NUM_LEVELS && l < NUM_LEVELS
    requires in0 <= Files(db.v[level]) && in1 <= Files(db.v[level + 1]) && forall f :: f in outs ==> f.number >= db.nextFile
    requires Changed(db.v, level, in0, {}, w) && Changed(db.v, level + 1, in1, Files(outs), w)
    requires l != level && l != level + 1 ==> w[l] == db.v[l]
    ensures Ordered(w[l]) && Files(w[l]) == After(Files(db.v[l]), CompactEdit(db, level, in0, in1, outs), l)
  {
    var gone := if l == level then in0 else if l == level + 1 then in1 else {};
    var add := if l == level + 1 then Files(outs) else {};
    LevelNumbers(db.v, l);
    hide VersionOk, After, CompactEdit, DeletedAt, AddedAt, Numbers, Ordered;
    NoNumbers();
    CompactEditAt(db, level, in0, in1, outs, l);
    NumbersApart(db.v, db.nextFile, l, gone, outs);
    AfterReplace(Files(db.v[l]), gone, add, CompactEdit(db, level, in0, in1, outs), l);
  }

  lemma DoSnapshot(db: Db) returns (db2: Db)
    requires Inv(db)
    ensures Next(db, TakeSnapshot, db2) && Inv(db2) && ShapeOf(db2) == ShapeOf(db).(snapshots := db.snapshots + [db.lastSequence])
  {
    db2 := db.(snapshots := db.snapshots + [db.lastSequence]);
    hide Inv;
    NextKeeps(db, TakeSnapshot, db2);
  }

  lemma DoRelease(db: Db) returns (db2: Db)
    requires Inv(db) && db.snapshots != []
    ensures Next(db, ReleaseSnapshot(0), db2) && Inv(db2) && ShapeOf(db2) == ShapeOf(db).(snapshots := db.snapshots[1..])
  {
    db2 := db.(snapshots := db.snapshots[..0] + db.snapshots[1..]);
    assert db.snapshots[..0] + db.snapshots[1..] == db.snapshots[1..];
    hide Inv;
    NextKeeps(db, ReleaseSnapshot(0), db2);
  }

  // ---------------------------------------------------------------- versions with levels 2 and 3

  function Two(a: seq<File>, b: seq<File>): (v: Version)
    ensures |v| == NUM_LEVELS
  {
    [[], [], a, b, [], [], []]
  }

  ghost predicate Got(db: Db, sh: Shape) {
    Reachable(db) && Inv(db) && ShapeOf(db) == sh
  }

  lemma GotNext(db: Db, sh: Shape, a: Action, db2: Db, sh2: Shape)
    requires Got(db, sh) && Next(db, a, db2) && Safe(db, a) && Inv(db2) && ShapeOf(db2) == sh2
    ensures Got(db2, sh2)
  {
    hide Reachable, Next, Safe, Inv, ShapeOf;
    Reach(db, a, db2);
  }

  lemma GotParts(db: Db, sh: Shape)
    requires Got(db, sh)
    ensures Inv(db) && db.v == sh.v && db.mem == sh.mem && db.imm == sh.imm && db.lastSequence == sh.last
    ensures db.snapshots == sh.snapshots && db.nextFile == sh.next && ShapeOf(db) == sh
  {
    hide Reachable, Inv;
  }

  lemma SafeOther(db: Db, a: Action)
    requires !a.Compact?
    ensures Safe(db, a)
  {
  }

  lemma GoWrite(db: Db, sh: Shape, ops: seq<(UserKey, Op)>, mem: seq<Entry>) returns (db2: Db)
    requires Got(db, sh) && sh.last + |ops| < MAX_SEQUENCE && Sorted(mem)
    requires Content(mem) == Content(sh.mem) + Content(BatchEntries(Batch(sh.last + 1, ops)))
    ensures Got(db2, sh.(mem := mem, last := sh.last + |ops|))
  {
    hide *;
    GotParts(db, sh);
    db2 := DoWrite(db, ops, mem);
    SafeOther(db, Write(ops));
    GotNext(db, sh, Write(ops), db2, sh.(mem := mem, last := sh.last + |ops|));
  }

  lemma GoSwitch(db: Db, sh: Shape) returns (db2: Db)
    requires Got(db, sh) && sh.imm == None
    ensures Got(db2, sh.(mem := [], imm := Some(sh.mem), next := sh.next + 1))
  {
    hide *;
    GotParts(db, sh);
    db2 := DoSwitch(db);
    SafeOther(db, SwitchMemtable);
    GotNext(db, sh, SwitchMemtable, db2, sh.(mem := [], imm := Some(sh.mem), next := sh.next + 1));
  }

  lemma GoSnapshot(db: Db, sh: Shape) returns (db2: Db)
    requires Got(db, sh)
    ensures Got(db2, sh.(snapshots := sh.snapshots + [sh.last]))
  {
    hide *;
    GotParts(db, sh);
    db2 := DoSnapshot(db);
    SafeOther(db, TakeSnapshot);
    GotNext(db, sh, TakeSnapshot, db2, sh.(snapshots := sh.snapshots + [sh.last]));
  }

  lemma GoRelease(db: Db, sh: Shape) returns (db2: Db)
    requires Got(db, sh) && sh.snapshots != []
    ensures Got(db2, sh.(snapshots := sh.snapshots[1..]))
  {
    hide *;
    GotParts(db, sh);
    db2 := DoRelease(db);
    SafeOther(db, ReleaseSnapshot(0));
    GotNext(db, sh, ReleaseSnapshot(0), db2, sh.(snapshots := sh.snapshots[1..]));
  }

  /** With nothing in the first three levels the memtable's table goes to level 2. */
  lemma GoFlush(db: Db, sh: Shape, b: seq<File>, f: File) returns (db2: Db)
    requires Got(db, sh) && sh.v == Two([], b) && sh.imm == Some(f.entries) && f.entries != []
    requires f == TableOf(sh.next, 100, f.entries)
    ensures Got(db2, sh.(v := Two([f], b), imm := None, next := sh.next + 1))
  {
    hide *;
    GotParts(db, sh);
    SevenLevels();
    FlushTwo(b, f);
    db2 := DoFlush(db, 2, 100, Two([f], b));
    SafeOther(db, Flush(2, 100));
    GotNext(db, sh, Flush(2, 100), db2, sh.(v := Two([f], b), imm := None, next := sh.next + 1));
  }

  lemma FlushTwo(b: seq<File>, f: File)
    ensures Picked(Two([], b), 2, f.smallest.ukey, f.largest.ukey) && Changed(Two([], b), 2, {}, {f}, Two([f], b))
    ensures forall l :: 0 <= l < NUM_LEVELS && l != 2 ==> Two([f], b)[l] == Two([], b)[l]
  {
    OneFile(f);
  }

  lemma OneFile(f: File)
    ensures Ordered([f]) && Files([f]) == {f} && Ordered([]) && Files([]) == {}
  {
    assert [f][0] == f;
  }

  lemma TwoFiles(f: File, g: File)
    ensures Files([f, g]) == {f, g} && (BySmallest(f, g) ==> Ordered([f, g]))
  {
    assert [f, g][0] == f && [f, g][1] == g;
  }

  lemma GoMove(db: Db, sh: Shape, f: File) returns (db2: Db)
    requires Got(db, sh) && sh.v == Two([f], [])
    ensures Got(db2, sh.(v := Two([], [f])))
  {
    hide *;
    GotParts(db, sh);
    SevenLevels();
    MoveTwo(f);
    db2 := DoMove(db, 2, f, Two([], [f]));
    SafeOther(db, Move(2, f));
    GotNext(db, sh, Move(2, f), db2, sh.(v := Two([], [f])));
  }

  lemma MoveTwo(f: File)
    ensures InputsOk(Two([f], []), 2, {f}, {})
    ensures Changed(Two([f], []), 2, {f}, {}, Two([], [f])) && Changed(Two([f], []), 3, {}, {f}, Two([], [f]))
    ensures forall l :: 0 <= l < NUM_LEVELS && l != 2 && l != 3 ==> Two([], [f])[l] == Two([f], [])[l]
  {
    OneFile(f);
    OneInput(f, [], {});
  }

  /** The inputs the code chooses for a file that is alone in its level. */
  lemma OneInput(f: File, below: seq<File>, in1: set<File>)
    requires in1 <= Files(below) && forall g :: g in below ==> (g in in1 <==> Overlaps(g, Some(f.smallest.ukey), Some(f.largest.ukey)))
    ensures InputsOk(Two([f], below), 2, {f}, in1)
  {
    OneFile(f);
    assert IsUserRange({f}, f.smallest.ukey, f.largest.ukey);
    assert Covers(below, in1, f.smallest.ukey, f.largest.ukey);
    assert forall g :: g in [f] ==> g == f;
  }

  // ---------------------------------------------------------------- the scenario

  const FIRST5 := Entry(IKey(5.0, 1), Put("first"))
  const BOTTOM := File(5, 100, FIRST5.ik, FIRST5.ik, [FIRST5])
  const WHOLE := File(7, 100, OLD5.ik, DEAD7.ik, [OLD5, TOMB7, DEAD7])

  lemma Write1()
    ensures Sorted([FIRST5]) && Content([FIRST5]) == Content([]) + Content(BatchEntries(Batch(1, [(5.0, Put("first"))])))
  {
    assert BatchEntries(Batch(1, [(5.0, Put("first"))])) == [FIRST5];
  }

  lemma GotInit()
    ensures Got(INIT, Shape(Two([], []), [], None, 0, [], 4))
  {
    ReachInit();
    InitInv();
    hide Reachable, Inv;
  }

  lemma Tables()
    ensures BOTTOM == TableOf(5, 100, BOTTOM.entries) && WHOLE == TableOf(7, 100, WHOLE.entries) && UPPER == TableOf(11, 100, UPPER.entries)
    ensures BOTTOM.entries == [FIRST5] && WHOLE.entries == [OLD5, TOMB7, DEAD7] && UPPER.entries == [NEW5]
  {
  }

  /** Key 5 is written and its table ends up in level 3. */
  lemma Stage1() returns (db: Db)
    ensures Got(db, Shape(Two([], [BOTTOM]), [], None, 1, [], 6))
  {
    assert MAX_SEQUENCE > 100;
    hide *;
    GotInit();
    Write1();
    Tables();
    db := INIT;
    var sh := Shape(Two([], []), [], None, 0, [], 4);
    var ops: seq<(UserKey, Op)> := [(5.0, Put("first"))];
    db := GoWrite(db, sh, ops, [FIRST5]);
    sh := sh.(mem := [FIRST5], last := 1);
    db := GoSwitch(db, sh);
    sh := sh.(mem := [], imm := Some([FIRST5]), next := 5);
    db := GoFlush(db, sh, [], BOTTOM);
    sh := sh.(v := Two([BOTTOM], []), imm := None, next := 6);
    db := GoMove(db, sh, BOTTOM);
  }

  lemma Write2()
    ensures Sorted([OLD5, DEAD7])
    ensures Content([OLD5, DEAD7]) == Content([]) + Content(BatchEntries(Batch(2, [(5.0, Put("old")), (7.0, Put("deleted"))])))
  {
    assert BatchEntries(Batch(2, [(5.0, Put("old")), (7.0, Put("deleted"))])) == [OLD5, DEAD7];
  }

  lemma Write3()
    ensures Sorted([OLD5, TOMB7, DEAD7])
    ensures Content([OLD5, TOMB7, DEAD7]) == Content([OLD5, DEAD7]) + Content(BatchEntries(Batch(4, [(7.0, Delete)])))
  {
    assert BatchEntries(Batch(4, [(7.0, Delete)])) == [TOMB7];
    assert [OLD5, TOMB7, DEAD7][0] == OLD5 && [OLD5, TOMB7, DEAD7][1] == TOMB7 && [OLD5, TOMB7, DEAD7][2] == DEAD7;
    assert [OLD5, DEAD7][0] == OLD5 && [OLD5, DEAD7][1] == DEAD7 && [TOMB7][0] == TOMB7;
  }

  lemma Write4()
    ensures Sorted([NEW5]) && Content([NEW5]) == Content([]) + Content(BatchEntries(Batch(5, [(5.0, Put("new"))])))
  {
    assert BatchEntries(Batch(5, [(5.0, Put("new"))])) == [NEW5];
  }

  /** Keys 5 and 7 are written, a snapshot is taken, key 7 is deleted, and the memtable is flushed. */
  lemma Stage2() returns (db: Db)
    ensures Got(db, Shape(Two([WHOLE], [BOTTOM]), [], None, 4, [3], 8))
  {
    assert MAX_SEQUENCE > 100;
    hide *;
    Write2();
    Write3();
    Tables();
    db := Stage1();
    var sh := Shape(Two([], [BOTTOM]), [], None, 1, [], 6);
    var ops: seq<(UserKey, Op)> := [(5.0, Put("old")), (7.0, Put("deleted"))];
    db := GoWrite(db, sh, ops, [OLD5, DEAD7]);
    sh := sh.(mem := [OLD5, DEAD7], last := 3);
    db := GoSnapshot(db, sh);
    sh := sh.(snapshots := [3]);
    ops := [(7.0, Delete)];
    db := GoWrite(db, sh, ops, [OLD5, TOMB7, DEAD7]);
    sh := sh.(mem := [OLD5, TOMB7, DEAD7], last := 4);
    db := GoSwitch(db, sh);
    sh := sh.(mem := [], imm := Some([OLD5, TOMB7, DEAD7]), next := 7);
    db := GoFlush(db, sh, [BOTTOM], WHOLE);
  }

  /** The snapshot keeps both entries of key 7, and the output is cut between them. */
  lemma FirstOutputs()
    ensures CompactionOutputs(Two([WHOLE], [BOTTOM]), 2, {WHOLE}, {BOTTOM}, 3, [LOWER1, LOWER2], 8)
    ensures NoResurrection(Two([WHOLE], [BOTTOM]), 2, {WHOLE}, {BOTTOM}, 3)
    ensures InputsOk(Two([WHOLE], [BOTTOM]), 2, {WHOLE}, {BOTTOM})
  {
    hide *;
    FirstKept();
    FirstInputs();
    NothingLeftOut(Two([WHOLE], [BOTTOM]));
  }

  lemma FirstInputs()
    ensures InputsOk(Two([WHOLE], [BOTTOM]), 2, {WHOLE}, {BOTTOM})
    ensures |Two([WHOLE], [BOTTOM])| == NUM_LEVELS && Two([WHOLE], [BOTTOM])[3] == [BOTTOM]
  {
    OneFile(BOTTOM);
    hide InputsOk, Files;
    OneInput(WHOLE, [BOTTOM], {BOTTOM});
  }

  lemma FirstKept()
    ensures CompactionOutputs(Two([WHOLE], [BOTTOM]), 2, {WHOLE}, {BOTTOM}, 3, [LOWER1, LOWER2], 8)
  {
    var v := Two([WHOLE], [BOTTOM]);
    FirstContents();
    FirstDrop(v, {OLD5, TOMB7, DEAD7, FIRST5});
    assert FileOk(LOWER1) && FileOk(LOWER2) && [LOWER1, LOWER2][0] == LOWER1 && [LOWER1, LOWER2][1] == LOWER2;
    hide Dropped, FilesContent, FileOk, Two, LevelContent, Inputs;
    assert DropSet(v, 2, {WHOLE}, {BOTTOM}, 3) == {FIRST5};
  }

  lemma NothingLeftOut(v: Version)
    requires |v| == NUM_LEVELS && v[3] == [BOTTOM]
    ensures NoResurrection(v, 2, {WHOLE}, {BOTTOM}, 3)
  {
    OneFile(BOTTOM);
    assert Files(v[3]) - {BOTTOM} == {};
    assert LeftOut(v, 2, {BOTTOM}) == {};
  }

  lemma FirstContents()
    ensures Inputs({WHOLE}, {BOTTOM}) == {OLD5, TOMB7, DEAD7, FIRST5}
    ensures LevelContent([LOWER1, LOWER2]) == {OLD5, TOMB7, DEAD7}
  {
    SplitContents();
    SingleContent(WHOLE);
    SingleContent(BOTTOM);
    UnionContent({WHOLE}, {BOTTOM});
    assert WHOLE.entries[0] == OLD5 && WHOLE.entries[1] == TOMB7 && WHOLE.entries[2] == DEAD7 && BOTTOM.entries[0] == FIRST5;
    assert Content(WHOLE.entries) == {OLD5, TOMB7, DEAD7} && Content(BOTTOM.entries) == {FIRST5};
    assert SPLIT_KEY[3] == [LOWER1, LOWER2];
  }

  lemma FirstDrop(v: Version, input: set<Entry>)
    requires input == {OLD5, TOMB7, DEAD7, FIRST5}
    ensures forall e :: e in input ==> (Dropped(v, 2, input, 3, e) <==> e == FIRST5)
  {
    assert OLD5 in input && Hidden(input, 3, FIRST5);
  }

  lemma Stage3() returns (db: Db)
    ensures Got(db, Shape(Two([], [LOWER1, LOWER2]), [], None, 4, [3], 10))
  {
    hide *;
    SevenLevels();
    var was := Stage2();
    var sh := Shape(Two([WHOLE], [BOTTOM]), [], None, 4, [3], 8);
    GotParts(was, sh);
    FirstOutputs();
    FirstChange();
    OldestSnapshot(was);
    db := DoCompact(was, 2, {WHOLE}, {BOTTOM}, [LOWER1, LOWER2], Two([], [LOWER1, LOWER2]));
    SafeCompact(was, 2, {WHOLE}, {BOTTOM}, [LOWER1, LOWER2]);
    GotNext(was, sh, Compact(2, {WHOLE}, {BOTTOM}, [LOWER1, LOWER2]), db, Shape(Two([], [LOWER1, LOWER2]), [], None, 4, [3], 10));
  }

  lemma OldestSnapshot(db: Db)
    ensures SmallestSnapshot(db) == if db.snapshots == [] then db.lastSequence else db.snapshots[0]
  {
  }

  lemma SafeCompact(db: Db, level: nat, in0: set<File>, in1: set<File>, outs: seq<File>)
    requires level + 1 < |db.v|
    ensures Safe(db, Compact(level, in0, in1, outs)) <==> NoResurrection(db.v, level, in0, in1, SmallestSnapshot(db))
  {
  }

  lemma FirstChange()
    ensures var v, w := Two([WHOLE], [BOTTOM]), Two([], [LOWER1, LOWER2]);
            && Changed(v, 2, {WHOLE}, {}, w) && Changed(v, 3, {BOTTOM}, Files([LOWER1, LOWER2]), w)
            && forall l :: 0 <= l < NUM_LEVELS && l != 2 && l != 3 ==> w[l] == v[l]
  {
    OneFile(WHOLE);
    OneFile(BOTTOM);
    TwoFiles(LOWER1, LOWER2);
  }

  /** The snapshot is released and key 5 written again; the store now has the version SPLIT_KEY. */
  lemma Stage4() returns (db: Db)
    ensures Got(db, Shape(SPLIT_KEY, [], None, 5, [], 12))
  {
    assert MAX_SEQUENCE > 100 && SPLIT_KEY == Two([UPPER], [LOWER1, LOWER2]);
    hide *;
    Write4();
    Tables();
    db := Stage3();
    var sh := Shape(Two([], [LOWER1, LOWER2]), [], None, 4, [3], 10);
    db := GoRelease(db, sh);
    sh := sh.(snapshots := []);
    var ops: seq<(UserKey, Op)> := [(5.0, Put("new"))];
    db := GoWrite(db, sh, ops, [NEW5]);
    sh := sh.(mem := [NEW5], last := 5);
    db := GoSwitch(db, sh);
    sh := sh.(mem := [], imm := Some([NEW5]), next := 11);
    db := GoFlush(db, sh, [LOWER1, LOWER2], UPPER);
  }

  // ---------------------------------------------------------------- the compaction

  const REPLACED := File(12, 100, NEW5.ik, NEW5.ik, [NEW5])

  lemma LastOutputs()
    ensures CompactionOutputs(SPLIT_KEY, 2, {UPPER}, {LOWER1}, 5, [REPLACED], 12)
  {
    SplitDrop();
    var input := {NEW5, OLD5, TOMB7};
    assert NEW5 in input && Hidden(input, 5, OLD5);
    assert forall e :: e in input ==> (Dropped(SPLIT_KEY, 2, input, 5, e) <==> e != NEW5);
    OneFile(REPLACED);
    SingleContent(REPLACED);
    assert FileOk(REPLACED) && [REPLACED][0] == REPLACED && Content(REPLACED.entries) == {NEW5};
    hide Dropped, FilesContent, FileOk;
    assert DropSet(SPLIT_KEY, 2, {UPPER}, {LOWER1}, 5) == {OLD5, TOMB7};
  }

  lemma LastChange()
    ensures var v, w := SPLIT_KEY, Two([], [REPLACED, LOWER2]);
            && Changed(v, 2, {UPPER}, {}, w) && Changed(v, 3, {LOWER1}, Files([REPLACED]), w)
            && forall l :: 0 <= l < NUM_LEVELS && l != 2 && l != 3 ==> w[l] == v[l]
  {
    OneFile(UPPER);
    OneFile(REPLACED);
    TwoFiles(LOWER1, LOWER2);
    TwoFiles(REPLACED, LOWER2);
  }

  lemma LastReads()
    ensures Find(All(SPLIT_KEY), 7.0, 5) == Some(TOMB7)
    ensures Find(All(Two([], [REPLACED, LOWER2])), 7.0, 5) == Some(DEAD7)
    ensures !NoResurrection(SPLIT_KEY, 2, {UPPER}, {LOWER1}, 5)
  {
    SplitReads();
    FindUnique(All(SPLIT_KEY), 7.0, 5, Some(TOMB7));
    SplitDrop();
    assert UniqueSeqnos(LeftOut(SPLIT_KEY, 2, {LOWER1}));
    FindUnique(LeftOut(SPLIT_KEY, 2, {LOWER1}), 7.0, 5, Some(DEAD7));
    assert TOMB7 in Inputs({UPPER}, {LOWER1});
    AfterContent();
    FindUnique(All(Two([], [REPLACED, LOWER2])), 7.0, 5, Some(DEAD7));
  }

  lemma AfterContent()
    ensures All(Two([], [REPLACED, LOWER2])) == {NEW5, DEAD7}
    ensures UniqueSeqnos({NEW5, DEAD7}) && Newest({NEW5, DEAD7}, 7.0, 5, DEAD7)
  {
    var v := Two([], [REPLACED, LOWER2]);
    AfterLevel3();
    assert forall l :: 0 <= l < |v| && l != 3 ==> LevelContent(v[l]) == {};
    hide LevelContent;
    assert NEW5 in LevelContent(v[3]) && DEAD7 in LevelContent(v[3]);
  }

  lemma AfterLevel3()
    ensures LevelContent([REPLACED, LOWER2]) == {NEW5, DEAD7}
  {
    SplitContents();
    SingleContent(REPLACED);
    TwoFiles(REPLACED, LOWER2);
    UnionContent({REPLACED}, {LOWER2});
    assert Content(REPLACED.entries) == {NEW5} by { assert REPLACED.entries[0] == NEW5; }
    assert {REPLACED, LOWER2} == {REPLACED} + {LOWER2};
    hide FilesContent;
  }

  /** A store reached from a new database by writes, flushes, a move, one snapshot and one compaction,
      all of them sound, in which the code can start a compaction that makes a deleted key readable. */
  lemma DeletedKeyComesBack() returns (db: Db, db2: Db)
    ensures Reachable(db) && Next(db, Compact(2, {UPPER}, {LOWER1}, [REPLACED]), db2)
    ensures !Safe(db, Compact(2, {UPPER}, {LOWER1}, [REPLACED]))
    ensures db2.lastSequence == db.lastSequence
    ensures ValueOf(ReadAt(db, 7.0, db.lastSequence)) == None
    ensures ValueOf(ReadAt(db2, 7.0, db2.lastSequence)) == Some("deleted")
  {
    hide *;
    var sh := Shape(SPLIT_KEY, [], None, 5, [], 12);
    db := Stage4();
    GotParts(db, sh);
    SplitInputsOk();
    LastOutputs();
    LastChange();
    LastReads();
    OldestSnapshot(db);
    SevenLevels();
    db2 := DoCompact(db, 2, {UPPER}, {LOWER1}, [REPLACED], Two([], [REPLACED, LOWER2]));
    SafeCompact(db, 2, {UPPER}, {LOWER1}, [REPLACED]);
    GotReachable(db, sh);
    EmptyMemtables(db, 7.0, 5);
    ShapeParts(db2);
    EmptyMemtables(db2, 7.0, 5);
    DeadIsDeleted();
  }

  lemma SevenLevels()
    ensures |SPLIT_KEY| == NUM_LEVELS == 7
  {
  }

  lemma GotReachable(db: Db, sh: Shape)
    requires Got(db, sh)
    ensures Reachable(db)
  {
    hide Reachable, Inv;
  }

  lemma ShapeParts(db: Db)
    ensures ShapeOf(db) == Shape(db.v, db.mem, db.imm, db.lastSequence, db.snapshots, db.nextFile)
  {
  }

  lemma EmptyMemtables(db: Db, k: UserKey, s: nat)
    requires db.mem == [] && db.imm == None
    ensures ReadAt(db, k, s) == Find(All(db.v), k, s)
  {
    assert Finds(Content([]), k, s, TableGet([], k, s));
  }

  // ---------------------------------------------------------------- a crash that leaves a gap

  /** A write, a new log, another write: a crash that loses the unsynced old log but not the new one
      keeps the second write without the first. */
  lemma GapReachable() returns (db: Db)
    ensures Reachable(db) && Inv(db) && CutOk(db, Cut(0, 1)) && !NoGap(db, Cut(0, 1))
  {
    var ops: seq<(UserKey, Op)> := [(5.0, Put("first"))];
    var b1, b2 := Batch(1, ops), Batch(2, ops);
    ReachInit();
    InitInv();
    var d1 := INIT.(logs := map[3 := [b1]], mem := InsertAll([], BatchEntries(b1)), lastSequence := 1);
    var d2 := d1.(logs := map[3 := [b1], 4 := []], logFile := 4, nextFile := 5, imm := Some(d1.mem), mem := []);
    db := d2.(logs := map[3 := [b1], 4 := [b2]], mem := InsertAll([], BatchEntries(b2)), lastSequence := 2);
    FirstWrite(d1, ops);
    NewLog(d1, d2, ops);
    SecondWrite(d2, db, ops);
    hide Reachable, Next, Inv;
    SafeOther(INIT, Write(ops));
    SafeOther(d1, SwitchMemtable);
    SafeOther(d2, Write(ops));
    NextKeeps(INIT, Write(ops), d1);
    Reach(INIT, Write(ops), d1);
    NextKeeps(d1, SwitchMemtable, d2);
    Reach(d1, SwitchMemtable, d2);
    NextKeeps(d2, Write(ops), db);
    Reach(d2, Write(ops), db);
    InvParts(db);
    GapThere(db, b1, b2);
  }

  lemma FirstWrite(d1: Db, ops: seq<(UserKey, Op)>)
    requires |ops| == 1
    requires d1 == INIT.(logs := map[3 := [Batch(1, ops)]], mem := InsertAll([], BatchEntries(Batch(1, ops))), lastSequence := 1)
    ensures Next(INIT, Write(ops), d1)
  {
    hide InsertAll, BatchEntries;
    assert INIT.logs[3] + [Batch(1, ops)] == [Batch(1, ops)];
  }

  lemma NewLog(d1: Db, d2: Db, ops: seq<(UserKey, Op)>)
    requires d1.imm == None && d1.logs == map[3 := [Batch(1, ops)]] && d1.nextFile == 4
    requires d2 == d1.(logs := map[3 := [Batch(1, ops)], 4 := []], logFile := 4, nextFile := 5, imm := Some(d1.mem), mem := [])
    ensures Next(d1, SwitchMemtable, d2)
  {
  }

  lemma SecondWrite(d2: Db, d3: Db, ops: seq<(UserKey, Op)>)
    requires |ops| == 1 && d2.lastSequence == 1 && d2.logFile == 4 && d2.logs == map[3 := [Batch(1, ops)], 4 := []] && d2.mem == []
    requires d3 == d2.(logs := map[3 := [Batch(1, ops)], 4 := [Batch(2, ops)]],
                       mem := InsertAll([], BatchEntries(Batch(2, ops))), lastSequence := 2)
    ensures Next(d2, Write(ops), d3)
  {
    hide InsertAll, BatchEntries;
    assert d2.logs[4] + [Batch(2, ops)] == [Batch(2, ops)];
  }

  lemma GapThere(db: Db, b1: Batch, b2: Batch)
    requires LogsOk(db) && db.imm.Some? && db.logNumber == 3 && db.logFile == 4 && db.logs == map[3 := [b1], 4 := [b2]]
    requires b1.ops != [] && b2.ops != []
    ensures CutOk(db, Cut(0, 1)) && !NoGap(db, Cut(0, 1))
  {
    var cut := Cut(0, 1);
    assert OlderLog(db) == [b1] && db.logs[db.logFile] == [b2];
    assert OlderLog(db)[cut.older..] == [] + [b1] && db.logs[db.logFile][..cut.newer] == [] + [b2];
    LogAppend([], b1);
    LogAppend([], b2);
    assert |BatchEntries(b1)| > 0 && |BatchEntries(b2)| > 0;
    assert |LogEntries([] + [b1])| > 0 && |LogEntries([] + [b2])| > 0;
  }
}
