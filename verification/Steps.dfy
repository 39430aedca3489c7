/** The steps of the store and the proof that each keeps the invariant. */
module Steps {
  import opened Optional
  import opened Keys
  import opened Versions
  import opened Selection
  import opened Preservation
  import opened Transitions
  import opened Manifest
  import opened Store
  import opened Batches

  datatype Action =
    | Write(ops: seq<(UserKey, Op)>)
    | UseUp(count: nat)
    | SwitchMemtable
    | Flush(p: nat, size: nat)
    | Compact(level: nat, in0: set<File>, in1: set<File>, outs: seq<File>)
    | Move(from: nat, file: File)
    | TakeSnapshot
    | ReleaseSnapshot(index: nat)
    | CrashAndRecover(older: nat, newer: nat, parts: seq<seq<Entry>>, tables: seq<File>, newLog: nat)

  // ---------------------------------------------------------------- write and switch

  ghost predicate NextWrite(db: Db, ops: seq<(UserKey, Op)>, db2: Db) {
    && db.logFile in db.logs && db.lastSequence + |ops| < MAX_SEQUENCE
    && var b := Batch(db.lastSequence + 1, ops);
       db2 == db.(logs := db.logs[db.logFile := db.logs[db.logFile] + [b]],
                  mem := InsertAll(db.mem, BatchEntries(b)),
                  lastSequence := db.lastSequence + |ops|)
  }

  /** A group that could not be logged has used up its sequence numbers and changed nothing else. */
  ghost predicate NextUseUp(db: Db, count: nat, db2: Db) {
    db.lastSequence + count < MAX_SEQUENCE && db2 == db.(lastSequence := db.lastSequence + count)
  }

  lemma UseUpKeeps(db: Db, count: nat, db2: Db)
    requires Inv(db) && NextUseUp(db, count, db2)
    ensures Inv(db2) && History(db2) == History(db)
  {
    hide VersionOk, Agrees, ManifestOk, Describes, AddedOk, NumbersOk, LogEntries;
    assert LogsOk(db2) && MemHistory(db2) == MemHistory(db) && ImmHistory(db2) == ImmHistory(db);
  }

  lemma WriteHistory(db: Db, ops: seq<(UserKey, Op)>, db2: Db)
    requires LogsOk(db) && NextWrite(db, ops, db2)
    ensures LogsOk(db2) && MemHistory(db2) == MemHistory(db) + BatchEntries(Batch(db.lastSequence + 1, ops))
    ensures History(db2) == History(db) + BatchEntries(Batch(db.lastSequence + 1, ops)) && ImmHistory(db2) == ImmHistory(db)
  {
    hide LogEntries, BatchEntries, InsertAll;
    var b := Batch(db.lastSequence + 1, ops);
    LogAppend(db.logs[db.logFile], b);
    assert LogsOk(db2) by {
      assert forall n, x :: n in db2.logs && x in db2.logs[n] ==> x == b || (n in db.logs && x in db.logs[n]);
    }
    assert History(db2) == db.flushed + ImmHistory(db) + (MemHistory(db) + BatchEntries(b));
  }

  lemma WriteKeeps(db: Db, ops: seq<(UserKey, Op)>, db2: Db)
    requires Inv(db) && NextWrite(db, ops, db2)
    ensures Inv(db2) && History(db2) == History(db) + BatchEntries(Batch(db.lastSequence + 1, ops))
  {
    hide *;
    var es := BatchEntries(Batch(db.lastSequence + 1, ops));
    WriteParts(db, ops, db2);
    InvParts(db);
    WriteHistory(db, ops, db2);
    WriteMemtable(db, es);
    WriteMemtablesOk(db, es, db2);
    WriteHistoryOk(db, es, db2);
    WriteRest(db, db2);
    InvIntro(db2);
  }

  /** Read your writes: after a write each key it names reads as its last operation on that key, every
      other key reads as before, and older snapshots see what they saw. */
  lemma WriteReads(db: Db, ops: seq<(UserKey, Op)>, db2: Db)
    requires Inv(db) && NextWrite(db, ops, db2)
    ensures Inv(db2)
    ensures forall k, i: nat :: LastOn(ops, k, i) ==>
              ValueOf(HistoryFind(History(db2), k, db2.lastSequence)) == if ops[i].1.Put? then Some(ops[i].1.value) else None
    ensures forall k :: !Names(ops, k) ==>
              ValueOf(HistoryFind(History(db2), k, db2.lastSequence)) == ValueOf(HistoryFind(History(db), k, db.lastSequence))
    ensures forall k, s: nat :: s <= db.lastSequence ==> HistoryFind(History(db2), k, s) == HistoryFind(History(db), k, s)
  {
    hide *;
    WriteKeeps(db, ops, db2);
    WriteCounts(db, ops, db2);
    InvParts(db);
    InvParts(db2);
    HistoryBelow(db);
    BatchReads(History(db), db.lastSequence, ops);
  }

  lemma WriteCounts(db: Db, ops: seq<(UserKey, Op)>, db2: Db)
    requires NextWrite(db, ops, db2)
    ensures db2.lastSequence == db.lastSequence + |ops|
  {
  }

  lemma HistoryBelow(db: Db)
    requires LogsOk(db) && HistoryOk(db)
    ensures forall e :: e in History(db) ==> e.ik.seqno <= db.lastSequence
  {
  }

  lemma WriteParts(db: Db, ops: seq<(UserKey, Op)>, db2: Db)
    requires NextWrite(db, ops, db2)
    ensures var es := BatchEntries(Batch(db.lastSequence + 1, ops));
            && db2 == db.(logs := db2.logs, mem := InsertAll(db.mem, es), lastSequence := db.lastSequence + |es|)
            && (forall i :: 0 <= i < |es| ==> es[i].ik.seqno == db.lastSequence + 1 + i)
            && db.lastSequence + |es| < MAX_SEQUENCE
  {
    hide InsertAll;
  }

  lemma WriteMemtablesOk(db: Db, es: seq<Entry>, db2: Db)
    requires LogsOk(db) && MemtablesOk(db) && LogsOk(db2) && Sorted(InsertAll(db.mem, es))
    requires db2.mem == InsertAll(db.mem, es) && db2.imm == db.imm
    requires MemHistory(db2) == MemHistory(db) + es && ImmHistory(db2) == ImmHistory(db)
    ensures MemtablesOk(db2)
  {
    ContentAppend(MemHistory(db), es);
  }

  lemma WriteHistoryOk(db: Db, es: seq<Entry>, db2: Db)
    requires LogsOk(db) && HistoryOk(db) && LogsOk(db2) && History(db2) == History(db) + es
    requires forall i :: 0 <= i < |es| ==> es[i].ik.seqno == db.lastSequence + 1 + i
    requires db2.lastSequence == db.lastSequence + |es| < MAX_SEQUENCE
    ensures HistoryOk(db2)
  {
    var h := History(db);
    hide History;
    forall i, j | 0 <= i < j < |h + es| ensures (h + es)[i].ik.seqno < (h + es)[j].ik.seqno {
      if i < |h| <= j { assert h[i] in h; }
    }
  }

  lemma WriteRest(db: Db, db2: Db)
    requires FilesOk(db) && SnapshotsOk(db) && DurableOk(db) && db2.lastSequence >= db.lastSequence
    requires db2 == db.(logs := db2.logs, mem := db2.mem, lastSequence := db2.lastSequence)
    ensures FilesOk(db2) && SnapshotsOk(db2) && DurableOk(db2)
  {
    hide VersionOk, Agrees, ManifestOk, Describes, AddedOk, NumbersOk;
  }

  lemma WriteMemtable(db: Db, es: seq<Entry>)
    requires Inv(db)
    requires forall i :: 0 <= i < |es| ==> es[i].ik.seqno == db.lastSequence + 1 + i
    ensures Sorted(InsertAll(db.mem, es))
  {
    InvParts(db);
    hide FilesOk, DurableOk, SnapshotsOk;
    forall x, y | x in db.mem && y in es ensures x.ik.seqno < y.ik.seqno {
      assert x in Content(db.mem);
      assert x in MemHistory(db);
      assert x in History(db);
    }
    InsertAllSorted(db.mem, es);
  }

  /** `MakeRoomForWrite` starting a new log and memtable: only without an immutable memtable. */
  ghost predicate NextSwitch(db: Db, db2: Db) {
    && db.imm.None?
    && db2 == db.(logs := db.logs[db.nextFile := []], logFile := db.nextFile, nextFile := db.nextFile + 1,
                  imm := Some(db.mem), mem := [])
  }

  lemma SwitchKeeps(db: Db, db2: Db)
    requires Inv(db) && NextSwitch(db, db2)
    ensures Inv(db2) && History(db2) == History(db)
  {
    assert LogsOk(db2);
    assert ImmHistory(db2) == MemHistory(db) && MemHistory(db2) == [];
    assert History(db2) == History(db);
    assert AddedOk(db2.manifest, db2.v, db2.nextFile);
  }

  // ---------------------------------------------------------------- installing an edit

  /** `LogAndApply`: appends the completed edit to the manifest. */
  lemma LogEdit(manifest: seq<Edit>, v: Version, e: Edit, w: Version)
    requires ManifestOk(manifest) && Describes(manifest, v) && EditOk(e) && Installs(v, e, w)
    requires forall l :: 0 <= l < NUM_LEVELS ==> FreshAt(Accumulated(manifest, l).add, e, l)
    ensures ManifestOk(manifest + [e]) && Describes(manifest + [e], w)
    ensures forall l :: 0 <= l < NUM_LEVELS ==>
              Accumulated(manifest + [e], l).add == Accumulated(manifest, l).add + AddedAt(e, l)
    ensures e.logNumber.Some? ==> LastLogNumber(manifest + [e]) == e.logNumber
    ensures e.nextFile.Some? ==> LastNextFile(manifest + [e]) == e.nextFile
    ensures e.lastSequence.Some? ==> LastSequence(manifest + [e]) == e.lastSequence
  {
    var longer := manifest + [e];
    assert longer[..|manifest|] == manifest;
    DescribesNext(manifest, v, e, w);
    forall l | 0 <= l < NUM_LEVELS ensures AllFresh({}, longer, l) {
      forall i | 0 <= i < |longer| ensures FreshAt({} + Accumulated(longer[..i], l).add, longer[i], l) {
        assert {} + Accumulated(longer[..i], l).add == Accumulated(longer[..i], l).add;
        if i < |manifest| {
          assert AllFresh({}, manifest, l);
          assert longer[..i] == manifest[..i];
          assert FreshAt({} + Accumulated(manifest[..i], l).add, manifest[i], l);
          assert {} + Accumulated(manifest[..i], l).add == Accumulated(manifest[..i], l).add;
        }
      }
    }
  }

  /** Additions under numbers the manifest has not used are fresh. */
  lemma FreshNumbers(manifest: seq<Edit>, v: Version, next: nat, e: Edit, l: nat)
    requires AddedOk(manifest, v, next) && l < NUM_LEVELS
    requires forall p :: p in e.added ==> p.1.number >= next
    requires forall i, j :: 0 <= i < j < |e.added| ==> e.added[i].1.number != e.added[j].1.number
    ensures FreshAt(Accumulated(manifest, l).add, e, l)
  {
  }

  ghost predicate NewNumbers(e: Edit, next: nat, next2: nat) {
    && (forall p :: p in e.added ==> next <= p.1.number < next2)
    && (forall i, j :: 0 <= i < j < |e.added| ==> e.added[i].1.number != e.added[j].1.number)
  }

  lemma AddedSameNumber(e: Edit, next: nat, next2: nat, l: nat, m: nat, f: File, g: File)
    requires NewNumbers(e, next, next2) && f in AddedAt(e, l) && g in AddedAt(e, m) && f.number == g.number
    ensures l == m && f == g
  {
    var i :| 0 <= i < |e.added| && e.added[i] == (l, f);
    var j :| 0 <= j < |e.added| && e.added[j] == (m, g);
    assert i == j;
  }

  lemma InstalledFile(v: Version, e: Edit, w: Version, l: nat, f: File)
    requires Installs(v, e, w) && l < NUM_LEVELS && f in w[l]
    ensures f in v[l] || f in AddedAt(e, l)
  {
    assert f in Files(w[l]);
    assert f in After(Files(v[l]), e, l);
  }

  lemma NumbersAfter(v: Version, next: nat, e: Edit, w: Version, next2: nat)
    requires Installs(v, e, w) && NumbersOk(v, next) && next <= next2 && NewNumbers(e, next, next2)
    ensures NumbersOk(w, next2)
  {
    forall l, f | 0 <= l < |w| && f in w[l] ensures f.number < next2 {
      InstalledFile(v, e, w, l, f);
    }
    forall l, m, f, g | 0 <= l < |w| && 0 <= m < |w| && f in w[l] && g in w[m] && f.number == g.number ensures l == m {
      InstalledFile(v, e, w, l, f);
      InstalledFile(v, e, w, m, g);
      if f in AddedAt(e, l) && g in AddedAt(e, m) {
        AddedSameNumber(e, next, next2, l, m, f, g);
      }
    }
  }

  lemma AddedAfter(manifest: seq<Edit>, v: Version, next: nat, e: Edit, manifest2: seq<Edit>, w: Version, next2: nat)
    requires Installs(v, e, w) && AddedOk(manifest, v, next) && NumbersOk(v, next)
    requires next <= next2 && NewNumbers(e, next, next2)
    requires forall l :: 0 <= l < NUM_LEVELS ==>
              Accumulated(manifest2, l).add == Accumulated(manifest, l).add + AddedAt(e, l)
    ensures AddedOk(manifest2, w, next2)
  {
    forall l, f | 0 <= l < NUM_LEVELS && f in Accumulated(manifest2, l).add
      ensures f.number < next2 && forall m, g :: 0 <= m < |w| && g in w[m] && g.number == f.number ==> l <= m
    {
      assert f in Accumulated(manifest, l).add || f in AddedAt(e, l);
      forall m, g | 0 <= m < |w| && g in w[m] && g.number == f.number ensures l <= m {
        InstalledFile(v, e, w, m, g);
        if f in AddedAt(e, l) && g in AddedAt(e, m) {
          AddedSameNumber(e, next, next2, l, m, f, g);
        }
      }
    }
  }

  /** Everything about the durable state when a complete edit with new file numbers is logged. */
  lemma DurableAfter(db: Db, e: Edit, db2: Db)
    requires VersionOk(db.v) && DurableOk(db) && EditOk(e) && Installs(db.v, e, db2.v)
    requires NewNumbers(e, db.nextFile, db2.nextFile) && db.nextFile <= db2.nextFile
    requires e.logNumber == Some(db2.logNumber) && e.nextFile == Some(db2.nextFile) && e.lastSequence == Some(db2.lastSequence)
    requires db2.manifest == db.manifest + [e]
    requires db2.floor <= db2.lastSequence && forall x :: x in db2.flushed ==> x.ik.seqno <= db2.lastSequence
    ensures DurableOk(db2)
  {
    forall l | 0 <= l < NUM_LEVELS ensures FreshAt(Accumulated(db.manifest, l).add, e, l) {
      FreshNumbers(db.manifest, db.v, db.nextFile, e, l);
    }
    LogEdit(db.manifest, db.v, e, db2.v);
    assert NumbersOk(db.v, db.nextFile);
    NumbersAfter(db.v, db.nextFile, e, db2.v, db2.nextFile);
    AddedAfter(db.manifest, db.v, db.nextFile, e, db2.manifest, db2.v, db2.nextFile);
  }

  // ---------------------------------------------------------------- flush

  function TableOf(number: nat, size: nat, es: seq<Entry>): File
    requires es != []
  {
    File(number, size, es[0].ik, es[|es| - 1].ik, es)
  }

  /** The edit of `WriteLevel0Table` and `CompactMemTable`; an empty memtable leaves no table. */
  function FlushEdit(db: Db, p: nat, size: nat): Edit
    requires db.imm.Some?
  {
    var es := db.imm.value;
    Edit({}, if es == [] then [] else [(p, TableOf(db.nextFile, size, es))],
         Some(db.logFile), Some(db.nextFile + 1), Some(db.lastSequence))
  }

  /** What `PickLevelForMemTableOutput` guarantees about the level it picks. */
  ghost predicate Picked(v: Version, p: nat, lo: UserKey, hi: UserKey) {
    && p < NUM_LEVELS
    && (p > 0 ==> forall l, g :: 0 <= l <= p && l < |v| && g in v[l] ==> !Overlaps(g, Some(lo), Some(hi)))
  }

  ghost predicate NextFlush(db: Db, p: nat, size: nat, db2: Db) {
    && LogsOk(db) && db.imm.Some?
    && (db.imm.value != [] ==>
          var f := TableOf(db.nextFile, size, db.imm.value);
          Picked(db.v, p, f.smallest.ukey, f.largest.ukey))
    && Installs(db.v, FlushEdit(db, p, size), db2.v)
    && db2 == db.(v := db2.v, imm := None, logNumber := db.logFile, nextFile := db.nextFile + 1,
                  manifest := db.manifest + [FlushEdit(db, p, size)],
                  flushed := db.flushed + ImmHistory(db),
                  logs := map n | n in db.logs && n >= db.logFile :: db.logs[n])
  }

  lemma AgreesLayer(upper: set<Entry>, E: set<Entry>, H: set<Entry>, floor: nat)
    requires NewerThan(upper, H) && E <= H && UniqueSeqnos(upper + H) && Agrees(E, H, floor)
    ensures Agrees(upper + E, upper + H, floor)
  {
    forall k: UserKey, s: nat | s >= floor
      ensures ValueOf(Find(upper + E, k, s)) == ValueOf(Find(upper + H, k, s))
    {
      LayeredFind(upper, E, k, s);
      LayeredFind(upper, H, k, s);
      var u := Find(upper, k, s);
      if u.Some? {
        FindUnique(upper + E, k, s, u);
        FindUnique(upper + H, k, s, u);
      } else {
        FindUnique(upper + E, k, s, Find(E, k, s));
        FindUnique(upper + H, k, s, Find(H, k, s));
      }
    }
  }

  /** An edit that deletes nothing leaves a level alone or adds its files. */
  lemma AfterAdd(base: set<File>, e: Edit, l: nat)
    requires e.deleted == {}
    ensures After(base, e, l) == base + AddedAt(e, l)
  {
    assert DeletedAt(e, l) == {};
    var d := ApplyTo(Delta({}, {}), e, l);
    assert d.del == {} && d.add == AddedAt(e, l);
  }

  lemma InstalledPlaced(v: Version, e: Edit, p: nat, f: File, w: Version)
    requires Installs(v, e, w) && e.deleted == {} && e.added == [(p, f)] && p < NUM_LEVELS
    requires forall l :: 0 <= l < NUM_LEVELS ==> Ordered(v[l])
    ensures Placed(v, p, f, w)
  {
    assert e.added[0] == (p, f) && (p, f) in e.added;
    forall l | 0 <= l < NUM_LEVELS ensures Files(w[l]) == Files(v[l]) + if l == p then {f} else {} {
      AfterAdd(Files(v[l]), e, l);
      assert AddedAt(e, l) == if l == p then {f} else {};
    }
    forall l | 0 <= l < NUM_LEVELS && l != p ensures w[l] == v[l] {
      assert Files(w[l]) == Files(v[l]);
      OrderedUnique(w[l], v[l]);
    }
  }

  lemma InstalledNothing(v: Version, e: Edit, w: Version)
    requires Installs(v, e, w) && e.deleted == {} && e.added == []
    requires forall l :: 0 <= l < NUM_LEVELS ==> Ordered(v[l])
    ensures w == v
  {
    forall l | 0 <= l < NUM_LEVELS ensures w[l] == v[l] {
      AfterAdd(Files(v[l]), e, l);
      assert AddedAt(e, l) == {};
      OrderedUnique(w[l], v[l]);
    }
  }

  lemma VersionOrdered(v: Version)
    requires VersionOk(v)
    ensures forall l :: 0 <= l < NUM_LEVELS ==> Ordered(v[l])
  {
    assert forall l :: 0 <= l < NUM_LEVELS ==> LevelOk(v[l]);
  }

  lemma PickedFits(v: Version, p: nat, f: File, next: nat)
    requires |v| == NUM_LEVELS && NumbersOk(v, next) && f.number >= next && Picked(v, p, f.smallest.ukey, f.largest.ukey)
    ensures Fits(v, p, f)
  {
    forall l, g | p > 0 && 0 <= l <= p && g in v[l] ensures Apart(f, g) {
      assert !Overlaps(g, Some(f.smallest.ukey), Some(f.largest.ukey));
    }
  }

  /** Adding a table of newer entries keeps the files in agreement with the flushed history. */
  lemma FlushedAgrees(v: Version, p: nat, f: File, w: Version, old1: seq<Entry>, more: seq<Entry>, floor: nat, next: nat)
    requires VersionOk(v) && Placed(v, p, f, w) && FileOk(f) && Content(f.entries) == Content(more)
    requires All(v) <= Content(old1) && Agrees(All(v), Content(old1), floor) && Increasing(old1 + more)
    requires NumbersOk(v, next) && f.number >= next && Picked(v, p, f.smallest.ukey, f.largest.ukey)
    ensures VersionOk(w) && All(w) <= Content(old1 + more) && Agrees(All(w), Content(old1 + more), floor)
  {
    PickedFits(v, p, f, next);
    hide VersionOk, Placed, FileOk, Fits, Picked, NumbersOk, Agrees;
    IncreasingParts(old1, more);
    IncreasingUnique(old1 + more);
    ContentAppend(old1, more);
    PlacedKeeps(v, p, f, w);
    AgreesLayer(Content(more), All(v), Content(old1), floor);
    assert All(v) + Content(more) == Content(more) + All(v);
    assert Content(old1) + Content(more) == Content(more) + Content(old1);
  }

  lemma FlushFiles(db: Db, p: nat, size: nat, db2: Db)
    requires Inv(db) && NextFlush(db, p, size, db2)
    ensures FilesOk(db2)
  {
    VersionOrdered(db.v);
    var es, e := db.imm.value, FlushEdit(db, p, size);
    IncreasingParts(db.flushed + ImmHistory(db), MemHistory(db));
    if es == [] {
      InstalledNothing(db.v, e, db2.v);
      NoContent(ImmHistory(db));
      NoContent(es);
      assert db2.flushed == db.flushed;
    } else {
      var f := TableOf(db.nextFile, size, es);
      InstalledPlaced(db.v, e, p, f, db2.v);
      assert FileOk(f) by { ImmBounded(db); }
      FlushedAgrees(db.v, p, f, db2.v, db.flushed, ImmHistory(db), db.floor, db.nextFile);
    }
  }

  lemma ImmBounded(db: Db)
    requires Inv(db) && db.imm.Some?
    ensures forall x :: x in db.imm.value ==> x.ik.seqno <= MAX_SEQUENCE
  {
    forall x | x in db.imm.value ensures x.ik.seqno <= MAX_SEQUENCE {
      assert x in Content(db.imm.value);
      assert x in ImmHistory(db);
      assert x in History(db);
    }
  }

  lemma FlushParts(db: Db, p: nat, size: nat, db2: Db)
    requires NextFlush(db, p, size, db2)
    ensures LogsOk(db) && db.imm.Some? && Installs(db.v, FlushEdit(db, p, size), db2.v)
    ensures db2 == db.(v := db2.v, imm := None, logNumber := db.logFile, nextFile := db.nextFile + 1,
                       manifest := db.manifest + [FlushEdit(db, p, size)], flushed := db.flushed + ImmHistory(db),
                       logs := map n | n in db.logs && n >= db.logFile :: db.logs[n])
    ensures EditOk(FlushEdit(db, p, size)) && NewNumbers(FlushEdit(db, p, size), db.nextFile, db.nextFile + 1)
    ensures FlushEdit(db, p, size).logNumber == Some(db.logFile) && FlushEdit(db, p, size).nextFile == Some(db.nextFile + 1)
    ensures FlushEdit(db, p, size).lastSequence == Some(db.lastSequence)
  {
    hide LogsOk, Installs, ImmHistory;
  }

  lemma FlushLogs(db: Db, db2: Db)
    requires LogsOk(db) && MemtablesOk(db) && HistoryOk(db) && SnapshotsOk(db) && db.imm.Some?
    requires db2 == db.(v := db2.v, imm := None, logNumber := db.logFile, nextFile := db.nextFile + 1,
                        manifest := db2.manifest, flushed := db.flushed + ImmHistory(db),
                        logs := map n | n in db.logs && n >= db.logFile :: db.logs[n])
    ensures LogsOk(db2) && MemtablesOk(db2) && HistoryOk(db2) && SnapshotsOk(db2) && History(db2) == History(db)
    ensures forall x :: x in db2.flushed ==> x.ik.seqno <= db2.lastSequence
  {
    assert LogsOk(db2);
    assert MemHistory(db2) == MemHistory(db) && ImmHistory(db2) == [];
    assert History(db2) == History(db);
    assert forall x :: x in db2.flushed ==> x in History(db);
  }

  lemma FlushKeeps(db: Db, p: nat, size: nat, db2: Db)
    requires Inv(db) && NextFlush(db, p, size, db2)
    ensures Inv(db2) && History(db2) == History(db)
  {
    hide *;
    InvParts(db);
    FilesParts(db);
    SnapshotFloor(db);
    FlushParts(db, p, size, db2);
    FlushLogs(db, db2);
    FlushFiles(db, p, size, db2);
    DurableAfter(db, FlushEdit(db, p, size), db2);
    InvIntro(db2);
  }

  // ---------------------------------------------------------------- taking the invariant apart

  lemma InvParts(db: Db)
    requires Inv(db)
    ensures LogsOk(db) && MemtablesOk(db) && HistoryOk(db) && FilesOk(db) && SnapshotsOk(db) && DurableOk(db)
  {
    hide LogsOk, MemtablesOk, HistoryOk, FilesOk, SnapshotsOk, DurableOk;
  }

  lemma InvIntro(db: Db)
    requires LogsOk(db) && MemtablesOk(db) && HistoryOk(db) && FilesOk(db) && SnapshotsOk(db) && DurableOk(db)
    ensures Inv(db)
  {
    hide LogsOk, MemtablesOk, HistoryOk, FilesOk, SnapshotsOk, DurableOk;
  }

  lemma FilesParts(db: Db)
    requires FilesOk(db)
    ensures VersionOk(db.v) && |db.v| == NUM_LEVELS && All(db.v) <= Content(db.flushed) && Agrees(All(db.v), Content(db.flushed), db.floor)
  {
    hide Agrees, LevelOk, Level0Ok, LevelSorted, NewerAbove;
  }

  lemma FilesIntro(db: Db)
    requires VersionOk(db.v) && All(db.v) <= Content(db.flushed) && Agrees(All(db.v), Content(db.flushed), db.floor)
    ensures FilesOk(db)
  {
    hide Agrees, VersionOk;
  }

  lemma DurableNumbers(db: Db)
    requires DurableOk(db)
    ensures NumbersOk(db.v, db.nextFile)
  {
    hide ManifestOk, Describes, AddedOk;
  }

  /** Steps that leave logs, memtables and flushed entries alone leave the history alone. */
  lemma LogsUntouched(db: Db, db2: Db)
    requires LogsOk(db) && MemtablesOk(db) && HistoryOk(db)
    requires db2.logs == db.logs && db2.logFile == db.logFile && db2.logNumber == db.logNumber && db2.nextFile >= db.nextFile
    requires db2.mem == db.mem && db2.imm == db.imm && db2.flushed == db.flushed && db2.lastSequence == db.lastSequence
    ensures LogsOk(db2) && MemtablesOk(db2) && HistoryOk(db2) && History(db2) == History(db)
  {
    assert MemHistory(db2) == MemHistory(db) && ImmHistory(db2) == ImmHistory(db);
  }

  // ---------------------------------------------------------------- compaction

  function SmallestSnapshot(db: Db): nat {
    if db.snapshots == [] then db.lastSequence else db.snapshots[0]
  }

  lemma SnapshotFloor(db: Db)
    requires SnapshotsOk(db)
    ensures db.floor <= SmallestSnapshot(db) <= db.lastSequence
  {
  }

  lemma SnapshotsIntro(db: Db, db2: Db)
    requires SnapshotsOk(db) && db2.snapshots == db.snapshots && db2.lastSequence == db.lastSequence
    requires db2.floor == db.floor || db2.floor == SmallestSnapshot(db)
    ensures SnapshotsOk(db2)
  {
  }

  /** The output tables of a compaction hold, in order, exactly the inputs the drop rule keeps. */
  ghost predicate CompactionOutputs(v: Version, level: nat, in0: set<File>, in1: set<File>, ss: nat, outs: seq<File>, next: nat) {
    && (forall i :: 0 <= i < |outs| ==> FileOk(outs[i]) && outs[i].number == next + i)
    && (forall i, j :: 0 <= i < j < |outs| ==> Before(outs[i].largest, outs[j].smallest))
    && LevelContent(outs) == Inputs(in0, in1) - DropSet(v, level, in0, in1, ss)
  }

  /** `AddInputDeletions` and the additions of `InstallCompactionResults`. */
  function CompactEdit(db: Db, level: nat, in0: set<File>, in1: set<File>, outs: seq<File>): Edit {
    Edit((set f | f in in0 :: (level, f.number)) + (set f | f in in1 :: (level + 1, f.number)),
         seq(|outs|, i requires 0 <= i < |outs| => (level + 1, outs[i])),
         Some(db.logNumber), Some(db.nextFile + |outs|), Some(db.lastSequence))
  }

  ghost predicate NextCompact(db: Db, level: nat, in0: set<File>, in1: set<File>, outs: seq<File>, db2: Db) {
    && |db.v| == NUM_LEVELS && level + 1 < NUM_LEVELS && InputsOk(db.v, level, in0, in1)
    && CompactionOutputs(db.v, level, in0, in1, SmallestSnapshot(db), outs, db.nextFile)
    && Installs(db.v, CompactEdit(db, level, in0, in1, outs), db2.v)
    && db2 == db.(v := db2.v, nextFile := db.nextFile + |outs|, floor := SmallestSnapshot(db),
                  manifest := db.manifest + [CompactEdit(db, level, in0, in1, outs)])
  }

  /** Every snapshot, and every later reader, sees the state after sequence number `n`. */
  ghost predicate SeenByAll(db: Db, n: nat) {
    n <= db.lastSequence && forall s :: s in db.snapshots ==> n <= s
  }

  /** Some file two or more levels below `level` may hold the key. */
  ghost predicate CoveredBelow(v: Version, level: nat, k: UserKey) {
    exists l, f :: level + 2 <= l < |v| && f in v[l] && f.smallest.ukey <= k <= f.largest.ukey
  }

  lemma SeenSmallest(db: Db, n: nat)
    requires SnapshotsOk(db)
    ensures SeenByAll(db, n) <==> n <= SmallestSnapshot(db)
  {
    if db.snapshots != [] { assert db.snapshots[0] in db.snapshots; }
  }

  lemma OutputsKeep(v: Version, level: nat, in0: set<File>, in1: set<File>, ss: nat, outs: seq<File>, next: nat, e: Entry)
    requires CompactionOutputs(v, level, in0, in1, ss, outs, next)
    ensures e in LevelContent(outs) <==>
            && e in Inputs(in0, in1)
            && (forall f :: f in Inputs(in0, in1) && f.ik.ukey == e.ik.ukey && e.ik.seqno < f.ik.seqno ==> f.ik.seqno > ss)
            && !(e.op.Delete? && e.ik.seqno <= ss && !CoveredBelow(v, level, e.ik.ukey))
  {
    hide Inputs, LevelContent, FileOk;
  }

  /** What a compaction leaves behind, for the snapshots there are: of the entries every snapshot sees
      only the newest of each key, and it is no tombstone unless a deeper file may hold the key.
      Nothing else is missing. */
  lemma CompactionDrops(db: Db, level: nat, in0: set<File>, in1: set<File>, outs: seq<File>, db2: Db, e: Entry)
    requires SnapshotsOk(db) && NextCompact(db, level, in0, in1, outs, db2)
    ensures e in LevelContent(outs) <==>
            && e in Inputs(in0, in1)
            && (forall f :: f in Inputs(in0, in1) && f.ik.ukey == e.ik.ukey && e.ik.seqno < f.ik.seqno ==> !SeenByAll(db, f.ik.seqno))
            && !(e.op.Delete? && SeenByAll(db, e.ik.seqno) && !CoveredBelow(db.v, level, e.ik.ukey))
  {
    hide *;
    CompactParts(db, level, in0, in1, outs, db2);
    OutputsKeep(db.v, level, in0, in1, SmallestSnapshot(db), outs, db.nextFile, e);
    SeenSmallest(db, e.ik.seqno);
    forall f | f in Inputs(in0, in1) ensures SeenByAll(db, f.ik.seqno) <==> f.ik.seqno <= SmallestSnapshot(db) {
      SeenSmallest(db, f.ik.seqno);
    }
  }

  lemma CompactEditAt(db: Db, level: nat, in0: set<File>, in1: set<File>, outs: seq<File>, l: nat)
    ensures var e := CompactEdit(db, level, in0, in1, outs);
            && DeletedAt(e, l) == (if l == level then Numbers(in0) else if l == level + 1 then Numbers(in1) else {})
            && AddedAt(e, l) == if l == level + 1 then Files(outs) else {}
  {
    var e := CompactEdit(db, level, in0, in1, outs);
    if l == level {
      assert forall n :: n in Numbers(in0) <==> (level, n) in e.deleted;
    } else if l == level + 1 {
      assert forall n :: n in Numbers(in1) <==> (level + 1, n) in e.deleted;
      forall f | f in Files(outs) ensures f in AddedAt(e, l) {
        var i :| 0 <= i < |outs| && outs[i] == f;
        assert e.added[i] == (level + 1, f);
      }
    }
  }

  /** Deleting by number removes exactly the chosen files of a level. */
  lemma AfterReplace(base: set<File>, gone: set<File>, add: set<File>, e: Edit, l: nat)
    requires gone <= base && DistinctNumbers(base) && DeletedAt(e, l) == Numbers(gone) && AddedAt(e, l) == add
    requires Numbers(add) !! Numbers(gone)
    ensures After(base, e, l) == base - gone + add
  {
    var d := ApplyTo(Delta({}, {}), e, l);
    assert d.del == Numbers(gone) && d.add == add;
    assert forall f :: f in add ==> f.number in Numbers(add);
    forall f | f in base ensures f.number in Numbers(gone) <==> f in gone {
      if f.number in Numbers(gone) {
        var g :| g in gone && g.number == f.number;
        assert g in base;
      }
    }
  }

  lemma LevelNumbers(v: Version, l: nat)
    requires VersionOk(v) && l < NUM_LEVELS
    ensures |v| == NUM_LEVELS && DistinctNumbers(Files(v[l])) && Ordered(v[l])
  {
    hide FileOk, Level0Ok, LevelSorted, NewerAbove;
    assert LevelOk(v[l]);
  }

  lemma NumbersApart(v: Version, next: nat, l: nat, gone: set<File>, outs: seq<File>)
    requires l < |v| && NumbersOk(v, next) && gone <= Files(v[l]) && forall f :: f in outs ==> f.number >= next
    ensures Numbers(Files(outs)) !! Numbers(gone)
  {
    forall f, g | f in Files(outs) && g in gone ensures f.number != g.number {
      assert g in Files(v[l]);
      assert g in v[l];
    }
  }

  lemma InstalledReplaced(db: Db, level: nat, in0: set<File>, in1: set<File>, outs: seq<File>, w: Version)
    requires VersionOk(db.v) && level + 1 < NUM_LEVELS && in0 <= Files(db.v[level]) && in1 <= Files(db.v[level + 1])
    requires NumbersOk(db.v, db.nextFile) && forall f :: f in outs ==> f.number >= db.nextFile
    requires Installs(db.v, CompactEdit(db, level, in0, in1, outs), w)
    ensures Replaced(db.v, level, in0, in1, Files(outs), w)
  {
    assert |w| == |db.v| == NUM_LEVELS;
    forall l | 0 <= l < NUM_LEVELS
      ensures Ordered(w[l]) && (l != level && l != level + 1 ==> w[l] == db.v[l])
      ensures l == level ==> Files(w[l]) == Files(db.v[l]) - in0
      ensures l == level + 1 ==> Files(w[l]) == Files(db.v[l]) - in1 + Files(outs)
    {
      hide *;
      InstalledLevel(db, level, in0, in1, outs, w, l);
    }
  }

  lemma InstallsAt(v: Version, e: Edit, w: Version, l: nat)
    requires VersionOk(v) && Installs(v, e, w) && l < NUM_LEVELS
    ensures |v| == |w| == NUM_LEVELS && Ordered(w[l]) && Files(w[l]) == After(Files(v[l]), e, l)
  {
    hide Ordered, After;
  }

  lemma NoNumbers()
    ensures Numbers({}) == {}
  {
  }

  lemma InstalledLevel(db: Db, level: nat, in0: set<File>, in1: set<File>, outs: seq<File>, w: Version, l: nat)
    requires VersionOk(db.v) && level + 1 < NUM_LEVELS && in0 <= Files(db.v[level]) && in1 <= Files(db.v[level + 1])
    requires NumbersOk(db.v, db.nextFile) && forall f :: f in outs ==> f.number >= db.nextFile
    requires Installs(db.v, CompactEdit(db, level, in0, in1, outs), w) && l < NUM_LEVELS
    ensures Ordered(w[l]) && (l != level && l != level + 1 ==> w[l] == db.v[l])
    ensures l == level ==> Files(w[l]) == Files(db.v[l]) - in0
    ensures l == level + 1 ==> Files(w[l]) == Files(db.v[l]) - in1 + Files(outs)
  {
    var gone := if l == level then in0 else if l == level + 1 then in1 else {};
    var add := if l == level + 1 then Files(outs) else {};
    var e := CompactEdit(db, level, in0, in1, outs);
    assert NUM_LEVELS == 7;
    hide *;
    InstallsAt(db.v, e, w, l);
    NumbersApart(db.v, db.nextFile, l, gone, outs);
    NoNumbers();
    CompactEditAt(db, level, in0, in1, outs, l);
    LevelNumbers(db.v, l);
    AfterReplace(Files(db.v[l]), gone, add, e, l);
    if l != level && l != level + 1 {
      OrderedUnique(w[l], db.v[l]);
    }
  }

  lemma OutputsDisjoint(v: Version, level: nat, in0: set<File>, in1: set<File>, ss: nat, outs: seq<File>, next: nat)
    requires CompactionOutputs(v, level, in0, in1, ss, outs, next)
    ensures OutputsOk(in0, in1, Files(outs))
  {
    forall f, g | f in Files(outs) && g in Files(outs) && f != g ensures Disjoint(f, g) {
      var i :| 0 <= i < |outs| && outs[i] == f;
      var j :| 0 <= j < |outs| && outs[j] == g;
    }
  }

  lemma CompactFiles(v: Version, level: nat, in0: set<File>, in1: set<File>, ss: nat, outs: seq<File>, next: nat, w: Version)
    requires VersionOk(v) && NumbersOk(v, next) && level + 1 < NUM_LEVELS && InputsOk(v, level, in0, in1)
    requires CompactionOutputs(v, level, in0, in1, ss, outs, next) && Replaced(v, level, in0, in1, Files(outs), w)
    ensures VersionOk(w) && All(w) == All(v) - DropSet(v, level, in0, in1, ss)
  {
    hide *;
    OutputsDisjoint(v, level, in0, in1, ss, outs, next);
    OutputFacts(v, level, in0, in1, ss, outs, next);
    ReplacedFiles(v, level, in0, in1, Files(outs), w);
    forall f: File, g: File | f in w[level + 1] && g in w[level + 1] && f.number == g.number ensures f == g {
      LowerDistinct(v, level, in1, outs, next, w, f, g);
    }
    ReplacedKeeps(v, level, in0, in1, Files(outs), w);
    DropsInside(v, level, in0, in1, ss);
  }

  lemma OutputFacts(v: Version, level: nat, in0: set<File>, in1: set<File>, ss: nat, outs: seq<File>, next: nat)
    requires CompactionOutputs(v, level, in0, in1, ss, outs, next)
    ensures forall i :: 0 <= i < |outs| ==> outs[i].number == next + i
    ensures FilesContent(Files(outs)) == Inputs(in0, in1) - DropSet(v, level, in0, in1, ss)
  {
    hide FileOk, Inputs, DropSet, FilesContent;
  }

  lemma ReplacedFiles(v: Version, level: nat, in0: set<File>, in1: set<File>, outs: set<File>, w: Version)
    requires Replaced(v, level, in0, in1, outs, w)
    ensures |w| == |v| == NUM_LEVELS && level + 1 < NUM_LEVELS && Files(w[level + 1]) == Files(v[level + 1]) - in1 + outs
  {
    hide Ordered;
  }

  lemma DropsInside(v: Version, level: nat, in0: set<File>, in1: set<File>, ss: nat)
    ensures var input, drops := Inputs(in0, in1), DropSet(v, level, in0, in1, ss); input - (input - drops) == drops
  {
    hide Inputs;
    var input, drops := Inputs(in0, in1), DropSet(v, level, in0, in1, ss);
    assert drops <= input;
  }

  lemma LowerDistinct(v: Version, level: nat, in1: set<File>, outs: seq<File>, next: nat, w: Version, f: File, g: File)
    requires VersionOk(v) && level + 1 < NUM_LEVELS && |w| == NUM_LEVELS && NumbersOk(v, next)
    requires Files(w[level + 1]) == Files(v[level + 1]) - in1 + Files(outs)
    requires forall i :: 0 <= i < |outs| ==> outs[i].number == next + i
    requires f in w[level + 1] && g in w[level + 1] && f.number == g.number
    ensures f == g
  {
    assert f in Files(w[level + 1]) && g in Files(w[level + 1]);
    assert LevelOk(v[level + 1]);
    if f in outs && g in outs {
      var i, j :| 0 <= i < |outs| && 0 <= j < |outs| && outs[i] == f && outs[j] == g;
    } else {
      assert f !in outs ==> f in v[level + 1] && f.number < next;
      assert g !in outs ==> g in v[level + 1] && g.number < next;
    }
  }

  lemma FlushedUnique(db: Db)
    requires Inv(db)
    ensures UniqueSeqnos(Content(db.flushed)) && UniqueSeqnos(All(db.v))
  {
    IncreasingParts(db.flushed + ImmHistory(db), MemHistory(db));
    IncreasingParts(db.flushed, ImmHistory(db));
    IncreasingUnique(db.flushed);
  }

  lemma AgreesTransitive(a: set<Entry>, b: set<Entry>, c: set<Entry>, floor: nat, ss: nat)
    requires Agrees(a, b, ss) && Agrees(b, c, floor) && floor <= ss
    ensures Agrees(a, c, ss)
  {
    forall k: UserKey, s: nat | s >= ss ensures ValueOf(Find(a, k, s)) == ValueOf(Find(c, k, s)) {
      assert ValueOf(Find(a, k, s)) == ValueOf(Find(b, k, s));
    }
  }

  lemma CompactParts(db: Db, level: nat, in0: set<File>, in1: set<File>, outs: seq<File>, db2: Db)
    requires NextCompact(db, level, in0, in1, outs, db2)
    ensures level + 1 < NUM_LEVELS && |db.v| == NUM_LEVELS && InputsOk(db.v, level, in0, in1)
    ensures CompactionOutputs(db.v, level, in0, in1, SmallestSnapshot(db), outs, db.nextFile)
    ensures Installs(db.v, CompactEdit(db, level, in0, in1, outs), db2.v)
    ensures db2 == db.(v := db2.v, nextFile := db.nextFile + |outs|, floor := SmallestSnapshot(db),
                       manifest := db.manifest + [CompactEdit(db, level, in0, in1, outs)])
  {
    hide InputsOk, CompactionOutputs, Installs, CompactEdit, SmallestSnapshot;
  }

  lemma OutputNumbers(v: Version, level: nat, in0: set<File>, in1: set<File>, ss: nat, outs: seq<File>, next: nat)
    requires CompactionOutputs(v, level, in0, in1, ss, outs, next)
    ensures forall i :: 0 <= i < |outs| ==> outs[i].number == next + i
    ensures forall f :: f in outs ==> f.number >= next
  {
  }

  lemma InputsInLevels(v: Version, level: nat, in0: set<File>, in1: set<File>)
    requires level + 1 < |v| && InputsOk(v, level, in0, in1)
    ensures in0 <= Files(v[level]) && in1 <= Files(v[level + 1])
  {
  }

  lemma CompactAgrees(db: Db, level: nat, in0: set<File>, in1: set<File>, outs: seq<File>, db2: Db)
    requires Inv(db) && NextCompact(db, level, in0, in1, outs, db2)
    requires NoResurrection(db.v, level, in0, in1, SmallestSnapshot(db))
    ensures VersionOk(db2.v) && All(db2.v) <= Content(db.flushed)
    ensures Agrees(All(db2.v), Content(db.flushed), SmallestSnapshot(db))
  {
    hide *;
    InvParts(db);
    FilesParts(db);
    FlushedUnique(db);
    SnapshotFloor(db);
    DurableNumbers(db);
    CompactParts(db, level, in0, in1, outs, db2);
    var v, w, ss := db.v, db2.v, SmallestSnapshot(db);
    OutputNumbers(v, level, in0, in1, ss, outs, db.nextFile);
    InputsInLevels(v, level, in0, in1);
    InstalledReplaced(db, level, in0, in1, outs, w);
    CompactFiles(v, level, in0, in1, ss, outs, db.nextFile, w);
    CompactionPreservesReads(v, level, in0, in1, ss);
    AgreesTransitive(All(w), All(v), Content(db.flushed), db.floor, ss);
  }

  lemma CompactEditNumbers(db: Db, level: nat, in0: set<File>, in1: set<File>, outs: seq<File>)
    ensures var e := CompactEdit(db, level, in0, in1, outs);
            e.logNumber == Some(db.logNumber) && e.nextFile == Some(db.nextFile + |outs|) && e.lastSequence == Some(db.lastSequence)
  {
  }

  lemma CompactDurable(db: Db, level: nat, in0: set<File>, in1: set<File>, outs: seq<File>, db2: Db)
    requires Inv(db) && NextCompact(db, level, in0, in1, outs, db2)
    ensures DurableOk(db2)
  {
    hide *;
    InvParts(db);
    FilesParts(db);
    FlushedBounded(db);
    SnapshotFloor(db);
    CompactParts(db, level, in0, in1, outs, db2);
    OutputNumbers(db.v, level, in0, in1, SmallestSnapshot(db), outs, db.nextFile);
    CompactNumbers(db, level, in0, in1, outs);
    CompactEditNumbers(db, level, in0, in1, outs);
    DurableAfter(db, CompactEdit(db, level, in0, in1, outs), db2);
  }

  /** A compaction keeps the invariant provided it resurrects nothing. */
  lemma CompactKeeps(db: Db, level: nat, in0: set<File>, in1: set<File>, outs: seq<File>, db2: Db)
    requires Inv(db) && NextCompact(db, level, in0, in1, outs, db2)
    requires NoResurrection(db.v, level, in0, in1, SmallestSnapshot(db))
    ensures Inv(db2) && History(db2) == History(db)
  {
    hide *;
    InvParts(db);
    SnapshotFloor(db);
    CompactParts(db, level, in0, in1, outs, db2);
    LogsUntouched(db, db2);
    CompactAgrees(db, level, in0, in1, outs, db2);
    FilesIntro(db2);
    CompactDurable(db, level, in0, in1, outs, db2);
    SnapshotsIntro(db, db2);
    InvIntro(db2);
  }

  lemma FlushedBounded(db: Db)
    requires LogsOk(db) && HistoryOk(db)
    ensures forall x :: x in db.flushed ==> x.ik.seqno <= db.lastSequence
  {
    assert forall x :: x in db.flushed ==> x in History(db);
  }

  lemma CompactNumbers(db: Db, level: nat, in0: set<File>, in1: set<File>, outs: seq<File>)
    requires level + 1 < NUM_LEVELS && forall i :: 0 <= i < |outs| ==> outs[i].number == db.nextFile + i
    ensures EditOk(CompactEdit(db, level, in0, in1, outs))
    ensures NewNumbers(CompactEdit(db, level, in0, in1, outs), db.nextFile, db.nextFile + |outs|)
  {
    var e := CompactEdit(db, level, in0, in1, outs);
    forall p | p in e.added ensures p.0 < NUM_LEVELS && db.nextFile <= p.1.number < db.nextFile + |outs| {
      var i :| 0 <= i < |outs| && e.added[i] == p;
    }
  }

  // ---------------------------------------------------------------- trivial move

  function MoveEdit(db: Db, level: nat, f: File): Edit {
    Edit({(level, f.number)}, [(level + 1, f)], Some(db.logNumber), Some(db.nextFile), Some(db.lastSequence))
  }

  ghost predicate NextMove(db: Db, level: nat, f: File, db2: Db) {
    && |db.v| == NUM_LEVELS && level + 1 < NUM_LEVELS && InputsOk(db.v, level, {f}, {})
    && Installs(db.v, MoveEdit(db, level, f), db2.v)
    && db2 == db.(v := db2.v, manifest := db.manifest + [MoveEdit(db, level, f)])
  }

  lemma MoveEditAt(db: Db, level: nat, f: File, l: nat)
    ensures DeletedAt(MoveEdit(db, level, f), l) == Numbers(if l == level then {f} else {})
    ensures AddedAt(MoveEdit(db, level, f), l) == if l == level + 1 then {f} else {}
  {
    var e := MoveEdit(db, level, f);
    assert e.added[0] == (level + 1, f) && (level + 1, f) in e.added;
    assert Numbers({f}) == {f.number};
    assert (level, f.number) in e.deleted;
  }

  lemma MoveReplaced(db: Db, level: nat, f: File, w: Version)
    requires VersionOk(db.v) && level + 1 < NUM_LEVELS && f in Files(db.v[level])
    requires Installs(db.v, MoveEdit(db, level, f), w)
    ensures Replaced(db.v, level, {f}, {}, {f}, w)
  {
    assert |w| == |db.v| == NUM_LEVELS;
    forall l | 0 <= l < NUM_LEVELS
      ensures Ordered(w[l]) && (l != level && l != level + 1 ==> w[l] == db.v[l])
      ensures l == level ==> Files(w[l]) == Files(db.v[l]) - {f}
      ensures l == level + 1 ==> Files(w[l]) == Files(db.v[l]) - {} + {f}
    {
      hide *;
      MoveLevel(db, level, f, w, l);
    }
  }

  lemma MoveLevel(db: Db, level: nat, f: File, w: Version, l: nat)
    requires VersionOk(db.v) && level + 1 < NUM_LEVELS && f in Files(db.v[level])
    requires Installs(db.v, MoveEdit(db, level, f), w) && l < NUM_LEVELS
    ensures Ordered(w[l]) && (l != level && l != level + 1 ==> w[l] == db.v[l])
    ensures l == level ==> Files(w[l]) == Files(db.v[l]) - {f}
    ensures l == level + 1 ==> Files(w[l]) == Files(db.v[l]) - {} + {f}
  {
    var e := MoveEdit(db, level, f);
    hide *;
    InstallsAt(db.v, e, w, l);
    NoNumbers();
    MoveEditAt(db, level, f, l);
    LevelNumbers(db.v, l);
    AfterReplace(Files(db.v[l]), if l == level then {f} else {}, if l == level + 1 then {f} else {}, e, l);
    if l != level && l != level + 1 {
      OrderedUnique(w[l], db.v[l]);
    }
  }

  lemma MoveFiles(v: Version, level: nat, f: File, w: Version, next: nat)
    requires VersionOk(v) && NumbersOk(v, next) && level + 1 < NUM_LEVELS && InputsOk(v, level, {f}, {})
    requires f in v[level] && Replaced(v, level, {f}, {}, {f}, w)
    ensures VersionOk(w) && All(w) == All(v)
  {
    assert {f} + {} == {f};
    assert FileOk(f) by { assert LevelOk(v[level]); }
    assert OutputsOk({f}, {}, {f});
    hide VersionOk, InputsOk, OutputsOk;
    forall a: File, b: File | a in w[level + 1] && b in w[level + 1] && a.number == b.number ensures a == b {
      MoveDistinct(v, level, f, w, next, a, b);
    }
    ReplacedKeeps(v, level, {f}, {}, {f}, w);
    assert Inputs({f}, {}) - FilesContent({f}) == {};
  }

  lemma MoveDistinct(v: Version, level: nat, f: File, w: Version, next: nat, a: File, b: File)
    requires VersionOk(v) && NumbersOk(v, next) && level + 1 < NUM_LEVELS && f in v[level]
    requires Replaced(v, level, {f}, {}, {f}, w)
    requires a in w[level + 1] && b in w[level + 1] && a.number == b.number
    ensures a == b
  {
    assert a in Files(w[level + 1]) && b in Files(w[level + 1]);
    assert LevelOk(v[level + 1]);
  }

  lemma MoveFresh(db: Db, level: nat, f: File, l: nat)
    requires |db.v| == NUM_LEVELS && level + 1 < NUM_LEVELS && f in db.v[level] && l < NUM_LEVELS
    requires AddedOk(db.manifest, db.v, db.nextFile)
    ensures FreshAt(Accumulated(db.manifest, l).add, MoveEdit(db, level, f), l)
  {
    MoveEditAt(db, level, f, l);
    forall g | g in Accumulated(db.manifest, l).add && l == level + 1 ensures g.number != f.number { }
  }

  /** Where the files are after a move: the moved file one level down, all others in place. */
  ghost predicate Moved(v: Version, level: nat, f: File, w: Version)
    requires |v| == |w| == NUM_LEVELS
  {
    forall m, g :: 0 <= m < NUM_LEVELS && g in w[m] ==> (g in v[m] && (m == level ==> g != f)) || (m == level + 1 && g == f)
  }

  lemma ReplacedMoved(v: Version, level: nat, f: File, w: Version)
    requires Replaced(v, level, {f}, {}, {f}, w)
    ensures Moved(v, level, f, w)
  {
    forall m, g | 0 <= m < NUM_LEVELS && g in w[m]
      ensures (g in v[m] && (m == level ==> g != f)) || (m == level + 1 && g == f)
    {
      assert g in Files(w[m]);
    }
  }

  lemma MoveParts(db: Db, level: nat, f: File, db2: Db)
    requires NextMove(db, level, f, db2)
    ensures level + 1 < NUM_LEVELS && |db.v| == NUM_LEVELS && InputsOk(db.v, level, {f}, {})
    ensures Installs(db.v, MoveEdit(db, level, f), db2.v)
    ensures db2 == db.(v := db2.v, manifest := db.manifest + [MoveEdit(db, level, f)])
  {
    hide InputsOk, Installs, MoveEdit;
  }

  lemma MoveSource(v: Version, level: nat, f: File)
    requires VersionOk(v) && level + 1 < NUM_LEVELS && InputsOk(v, level, {f}, {})
    ensures f in v[level] && f in Files(v[level]) && LevelOk(v[level])
  {
    assert f in {f};
  }

  lemma MoveEditNumbers(db: Db, level: nat, f: File)
    requires level + 1 < NUM_LEVELS
    ensures EditOk(MoveEdit(db, level, f))
    ensures var e := MoveEdit(db, level, f);
            e.logNumber == Some(db.logNumber) && e.nextFile == Some(db.nextFile) && e.lastSequence == Some(db.lastSequence)
  {
  }

  lemma DurableParts(db: Db)
    requires DurableOk(db)
    ensures ManifestOk(db.manifest) && Describes(db.manifest, db.v) && AddedOk(db.manifest, db.v, db.nextFile)
    ensures NumbersOk(db.v, db.nextFile)
  {
    hide ManifestOk, Describes, AddedOk;
  }

  lemma DurableIntro(db: Db)
    requires ManifestOk(db.manifest) && Describes(db.manifest, db.v) && AddedOk(db.manifest, db.v, db.nextFile)
    requires NumbersOk(db.v, db.nextFile) && LastLogNumber(db.manifest) == Some(db.logNumber)
    requires LastNextFile(db.manifest) == Some(db.nextFile) && LastSequence(db.manifest) == Some(db.lastSequence)
    requires db.floor <= db.lastSequence && forall x :: x in db.flushed ==> x.ik.seqno <= db.lastSequence
    ensures DurableOk(db)
  {
    hide ManifestOk, Describes, AddedOk, NumbersOk;
  }

  lemma MoveDurable(db: Db, level: nat, f: File, db2: Db)
    requires Inv(db) && NextMove(db, level, f, db2)
    ensures DurableOk(db2)
  {
    hide *;
    InvParts(db);
    FilesParts(db);
    DurableParts(db);
    FlushedBounded(db);
    SnapshotFloor(db);
    MoveParts(db, level, f, db2);
    MoveSource(db.v, level, f);
    var e := MoveEdit(db, level, f);
    MoveEditNumbers(db, level, f);
    forall l | 0 <= l < NUM_LEVELS ensures FreshAt(Accumulated(db.manifest, l).add, e, l) {
      MoveFresh(db, level, f, l);
    }
    LogEdit(db.manifest, db.v, e, db2.v);
    MoveReplaced(db, level, f, db2.v);
    SameLength(db.v, level, f, db2.v);
    ReplacedMoved(db.v, level, f, db2.v);
    MovedNumbers(db.v, db.nextFile, level, f, db2.v);
    forall l | 0 <= l < NUM_LEVELS ensures AddedAt(e, l) == if l == level + 1 then {f} else {} {
      MoveEditAt(db, level, f, l);
    }
    MovedAdded(db.manifest, db.v, db.nextFile, level, f, db2.manifest, db2.v);
    DurableIntro(db2);
  }

  lemma SameLength(v: Version, level: nat, f: File, w: Version)
    requires Replaced(v, level, {f}, {}, {f}, w)
    ensures |v| == |w| == NUM_LEVELS
  {
  }

  lemma MovedNumbers(v: Version, next: nat, level: nat, f: File, w: Version)
    requires |v| == |w| == NUM_LEVELS && level + 1 < NUM_LEVELS && f in v[level] && NumbersOk(v, next) && LevelOk(v[level])
    requires Moved(v, level, f, w)
    ensures NumbersOk(w, next)
  {
    forall l, m, a, b | 0 <= l < |w| && 0 <= m < |w| && a in w[l] && b in w[m] && a.number == b.number ensures l == m {
    }
  }

  lemma MovedAdded(manifest: seq<Edit>, v: Version, next: nat, level: nat, f: File, manifest2: seq<Edit>, w: Version)
    requires |v| == |w| == NUM_LEVELS && level + 1 < NUM_LEVELS && f in v[level] && AddedOk(manifest, v, next)
    requires NumbersOk(v, next) && LevelOk(v[level])
    requires Moved(v, level, f, w)
    requires forall l :: 0 <= l < NUM_LEVELS ==>
              Accumulated(manifest2, l).add == Accumulated(manifest, l).add + if l == level + 1 then {f} else {}
    ensures AddedOk(manifest2, w, next)
  {
    forall l, x | 0 <= l < NUM_LEVELS && x in Accumulated(manifest2, l).add
      ensures x.number < next && forall m, g :: 0 <= m < |w| && g in w[m] && g.number == x.number ==> l <= m
    {
      forall m, g | 0 <= m < |w| && g in w[m] && g.number == x.number ensures l <= m {
        if g == f && m == level + 1 {
          assert x in Accumulated(manifest, l).add ==> l <= level;
        } else {
          assert g in v[m];
          assert x == f ==> m == level;
        }
      }
    }
  }

  lemma MoveKeeps(db: Db, level: nat, f: File, db2: Db)
    requires Inv(db) && NextMove(db, level, f, db2)
    ensures Inv(db2) && History(db2) == History(db)
  {
    hide *;
    InvParts(db);
    FilesParts(db);
    DurableNumbers(db);
    MoveParts(db, level, f, db2);
    LogsUntouched(db, db2);
    MoveSource(db.v, level, f);
    MoveReplaced(db, level, f, db2.v);
    MoveFiles(db.v, level, f, db2.v, db.nextFile);
    FilesIntro(db2);
    MoveDurable(db, level, f, db2);
    SnapshotsIntro(db, db2);
    InvIntro(db2);
  }
}
