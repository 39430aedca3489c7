/** The store as a state machine: memtables, logs, versions, manifest and snapshots. */
module Store {
  import opened Optional
  import opened Keys
  import opened Batches
  import opened Versions
  import opened Manifest

  /** The volatile and the durable state. `flushed` and `floor` are history variables: the writes that
      have reached table files, and the largest snapshot any compaction has used. */
  datatype Db = Db(
    v: Version,
    mem: seq<Entry>,
    imm: Option<seq<Entry>>,
    lastSequence: nat,
    snapshots: seq<nat>,
    logs: map<nat, seq<Batch>>,
    logFile: nat,
    logNumber: nat,
    nextFile: nat,
    manifest: seq<Edit>,
    flushed: seq<Entry>,
    floor: nat)

  // ---------------------------------------------------------------- the invariant

  /** `logfile_number_` is ahead of the manifest's log number only while there is an immutable memtable. */
  ghost predicate LogsOk(db: Db) {
    && db.logFile in db.logs && db.logNumber in db.logs
    && (if db.imm.None? then db.logNumber == db.logFile else db.logNumber < db.logFile)
    && (forall n :: n in db.logs && n >= db.logNumber ==> n == db.logNumber || n == db.logFile)
    && (forall n :: n in db.logs ==> n < db.nextFile)
    && (forall n, b :: n in db.logs && b in db.logs[n] ==> 1 <= b.seqno && b.seqno + |b.ops| <= db.lastSequence + 1)
  }

  ghost function MemHistory(db: Db): seq<Entry>
    requires LogsOk(db)
  {
    LogEntries(db.logs[db.logFile])
  }

  ghost function ImmHistory(db: Db): seq<Entry>
    requires LogsOk(db)
  {
    if db.imm.None? then [] else LogEntries(db.logs[db.logNumber])
  }

  /** All committed writes, oldest first: the specification state. */
  ghost function History(db: Db): seq<Entry>
    requires LogsOk(db)
  {
    db.flushed + ImmHistory(db) + MemHistory(db)
  }

  ghost predicate MemtablesOk(db: Db)
    requires LogsOk(db)
  {
    && Sorted(db.mem) && Content(db.mem) == Content(MemHistory(db))
    && (db.imm.Some? ==> Sorted(db.imm.value) && Content(db.imm.value) == Content(ImmHistory(db)))
  }

  ghost predicate HistoryOk(db: Db)
    requires LogsOk(db)
  {
    && Increasing(History(db))
    && (forall e :: e in History(db) ==> e.ik.seqno <= db.lastSequence)
    && db.lastSequence < MAX_SEQUENCE
  }

  ghost predicate FilesOk(db: Db) {
    && VersionOk(db.v)
    && All(db.v) <= Content(db.flushed)
    && Agrees(All(db.v), Content(db.flushed), db.floor)
  }

  ghost predicate SnapshotsOk(db: Db) {
    && db.floor <= db.lastSequence
    && (forall i :: 0 <= i < |db.snapshots| ==> db.floor <= db.snapshots[i] <= db.lastSequence)
    && (forall i, j :: 0 <= i < j < |db.snapshots| ==> db.snapshots[i] <= db.snapshots[j])
  }

  /** A file number is live at one level at most, and the next number is unused. */
  ghost predicate NumbersOk(v: Version, next: nat) {
    && (forall l, m, f, g :: 0 <= l < |v| && 0 <= m < |v| && f in v[l] && g in v[m] && f.number == g.number ==> l == m)
    && (forall l, f :: 0 <= l < |v| && f in v[l] ==> f.number < next)
  }

  /** Files only ever move down, and every number the manifest has used is below the next one. */
  ghost predicate AddedOk(manifest: seq<Edit>, v: Version, next: nat) {
    forall l, f :: 0 <= l < NUM_LEVELS && f in Accumulated(manifest, l).add ==>
      f.number < next && forall m, g :: 0 <= m < |v| && g in v[m] && g.number == f.number ==> l <= m
  }

  /** What recovery needs: the manifest describes the current version and knows where the logs start. */
  ghost predicate DurableOk(db: Db) {
    && ManifestOk(db.manifest) && Describes(db.manifest, db.v)
    && LastLogNumber(db.manifest) == Some(db.logNumber)
    && LastNextFile(db.manifest).Some? && LastSequence(db.manifest).Some?
    && NumbersOk(db.v, LastNextFile(db.manifest).value) && LastNextFile(db.manifest).value <= db.nextFile
    && AddedOk(db.manifest, db.v, db.nextFile)
    && db.floor <= LastSequence(db.manifest).value <= db.lastSequence
    && (forall e :: e in db.flushed ==> e.ik.seqno <= LastSequence(db.manifest).value)
  }

  ghost predicate Inv(db: Db) {
    LogsOk(db) && MemtablesOk(db) && HistoryOk(db) && FilesOk(db) && SnapshotsOk(db) && DurableOk(db)
  }

  // ---------------------------------------------------------------- reads

  lemma ContentAppend(a: seq<Entry>, b: seq<Entry>)
    ensures Content(a + b) == Content(a) + Content(b)
  {
  }

  lemma IncreasingParts(a: seq<Entry>, b: seq<Entry>)
    requires Increasing(a + b)
    ensures Increasing(a) && Increasing(b)
    ensures forall e, f :: e in a && f in b ==> e.ik.seqno < f.ik.seqno
    ensures NewerThan(Content(b), Content(a))
  {
    assert forall i :: 0 <= i < |a| ==> (a + b)[i] == a[i];
    assert forall i :: 0 <= i < |b| ==> (a + b)[|a| + i] == b[i];
    forall e, f | e in a && f in b ensures e.ik.seqno < f.ik.seqno {
      var i, j :| 0 <= i < |a| && 0 <= j < |b| && a[i] == e && b[j] == f;
      assert (a + b)[i].ik.seqno < (a + b)[|a| + j].ik.seqno;
    }
  }

  lemma ThreeLayers(me: set<Entry>, im: set<Entry>, fl: set<Entry>, files: set<Entry>, floor: nat,
                    k: UserKey, s: nat, m: Option<Entry>, i: Option<Entry>, r: Option<Entry>)
    requires NewerThan(me, im + fl) && NewerThan(im, fl) && UniqueSeqnos(me + (im + fl))
    requires files <= fl && Agrees(files, fl, floor) && s >= floor
    requires Finds(me, k, s, m) && Finds(im, k, s, i)
    requires if m.Some? then r == m else if i.Some? then r == i else Finds(files, k, s, r)
    ensures ValueOf(r) == ValueOf(Find(me + (im + fl), k, s))
  {
    LayeredFind(me, im + fl, k, s);
    LayeredFind(im, fl, k, s);
    if m.Some? || i.Some? {
      FindUnique(me + (im + fl), k, s, r);
    } else {
      FindUnique(files, k, s, r);
      FindUnique(me + (im + fl), k, s, Find(fl, k, s));
    }
  }

  lemma HistoryContents(db: Db)
    requires LogsOk(db) && Increasing(History(db))
    ensures Content(History(db)) == Content(MemHistory(db)) + (Content(ImmHistory(db)) + Content(db.flushed))
    ensures NewerThan(Content(MemHistory(db)), Content(ImmHistory(db)) + Content(db.flushed))
    ensures NewerThan(Content(ImmHistory(db)), Content(db.flushed))
    ensures UniqueSeqnos(Content(History(db)))
  {
    var fl, im, me := db.flushed, ImmHistory(db), MemHistory(db);
    IncreasingParts(fl + im, me);
    IncreasingParts(fl, im);
    ContentAppend(fl + im, me);
    ContentAppend(fl, im);
    IncreasingUnique(History(db));
  }

  /** Reading through the layers, newest first, is reading the history. */
  lemma LayersRefineHistory(db: Db, k: UserKey, s: nat, r: Option<Entry>)
    requires Inv(db) && s >= db.floor
    requires
      var m := TableGet(db.mem, k, s);
      var i := if db.imm.Some? then TableGet(db.imm.value, k, s) else None;
      if m.Some? then r == m else if i.Some? then r == i else Finds(All(db.v), k, s, r)
    ensures ValueOf(r) == ValueOf(HistoryFind(History(db), k, s))
  {
    var m := TableGet(db.mem, k, s);
    var i := if db.imm.Some? then TableGet(db.imm.value, k, s) else None;
    HistoryContents(db);
    ThreeLayers(Content(MemHistory(db)), Content(ImmHistory(db)), Content(db.flushed), All(db.v), db.floor, k, s, m, i, r);
    HistoryFindsNewest(History(db), k, s);
    FindUnique(Content(History(db)), k, s, HistoryFind(History(db), k, s));
  }

  /** `DBImpl::Get` at a live snapshot, or at the newest state if none is given. */
  method Get(db: Db, k: UserKey, snapshot: Option<nat>) returns (value: Option<string>)
    requires Inv(db) && (snapshot.Some? ==> snapshot.value in db.snapshots)
    ensures value == ValueOf(HistoryFind(History(db), k, if snapshot.Some? then snapshot.value else db.lastSequence))
  {
    var s := if snapshot.Some? then snapshot.value else db.lastSequence;
    var r := TableGet(db.mem, k, s);
    if r.None? && db.imm.Some? {
      r := TableGet(db.imm.value, k, s);
    }
    if r.None? {
      r := Versions.Get(db.v, k, s);
    }
    LayersRefineHistory(db, k, s, r);
    value := ValueOf(r);
  }
}
