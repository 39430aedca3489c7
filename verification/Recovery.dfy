/** Crashes: the volatile state is lost, the manifest and the logs are replayed. */
module Recovery {
  import opened Optional
  import opened Keys
  import opened Versions
  import opened Compactions
  import opened Transitions
  import opened Manifest
  import opened Store
  import opened Batches
  import opened Steps

  /** The largest sequence number recovery sees in a log. */
  function MaxSequence(log: seq<Batch>): nat {
    if log == [] then 0
    else
      var b := log[|log| - 1];
      var front := MaxSequence(log[..|log| - 1]);
      if b.seqno + |b.ops| > front + 1 then b.seqno + |b.ops| - 1 else front
  }

  /** How many batches of the two logs recovery can read: a crash may lose a tail of either, because
      switching to a new log does not sync the old one. */
  datatype Cut = Cut(older: nat, newer: nat)

  /** The log of the immutable memtable. */
  function OlderLog(db: Db): seq<Batch> {
    if db.imm.Some? && db.logNumber in db.logs then db.logs[db.logNumber] else []
  }

  ghost predicate CutOk(db: Db, cut: Cut)
    requires LogsOk(db)
  {
    cut.older <= |OlderLog(db)| && cut.newer <= |db.logs[db.logFile]|
  }

  /** The batches recovery reads: every log at or above the manifest's log number, oldest first. */
  ghost function SurvivingLog(db: Db, cut: Cut): seq<Batch>
    requires LogsOk(db) && CutOk(db, cut)
  {
    OlderLog(db)[..cut.older] + db.logs[db.logFile][..cut.newer]
  }

  lemma {:induction false} LogConcat(a: seq<Batch>, b: seq<Batch>)
    ensures LogEntries(a + b) == LogEntries(a) + LogEntries(b)
    decreases |b|
  {
    if b == [] {
      assert a + b == a;
    } else {
      var front, last := b[..|b| - 1], b[|b| - 1];
      assert a + b == (a + front) + [last] && b == front + [last];
      LogAppend(a + front, last);
      LogAppend(front, last);
      hide *;
      LogConcat(a, front);
      Reassociate(LogEntries(a), LogEntries(front), BatchEntries(last));
    }
  }

  lemma {:induction false} MaxSequenceBounds(log: seq<Batch>, bound: nat)
    requires forall b :: b in log ==> 1 <= b.seqno && b.seqno + |b.ops| <= bound + 1
    ensures MaxSequence(log) <= bound
    ensures forall e :: e in LogEntries(log) ==> e.ik.seqno <= MaxSequence(log)
  {
    if log != [] {
      var front, b := log[..|log| - 1], log[|log| - 1];
      assert b in log;
      MaxSequenceBounds(front, bound);
      assert forall e :: e in BatchEntries(b) ==> e.ik.seqno <= b.seqno + |b.ops| - 1;
    }
  }

  /** Recovered memtables become level-0 tables, in the order in which they were filled. */
  ghost predicate RecoveredTables(parts: seq<seq<Entry>>, tables: seq<File>, next: nat) {
    && |tables| == |parts|
    && (forall i :: 0 <= i < |parts| ==> parts[i] != [] && InsertAll([], parts[i]) != [])
    && (forall i :: 0 <= i < |parts| ==>
          next <= tables[i].number && tables[i] == TableOf(tables[i].number, tables[i].size, InsertAll([], parts[i])))
    && (forall i, j :: 0 <= i < j < |parts| ==> tables[i].number < tables[j].number)
  }

  function AddsFrom(v: Version, l: nat): seq<(nat, File)>
    decreases |v| - l
  {
    if l >= |v| then []
    else seq(|v[l]|, i requires 0 <= i < |v[l]| => (l, v[l][i])) + AddsFrom(v, l + 1)
  }

  /** The record `WriteSnapshot` opens a new manifest with. */
  function SnapshotEdit(v: Version): Edit {
    Edit({}, AddsFrom(v, 0), None, None, None)
  }

  function RecoveryEdit(tables: seq<File>, newLog: nat, last: nat): Edit {
    Edit({}, seq(|tables|, i requires 0 <= i < |tables| => (0 as nat, tables[i])), Some(newLog), Some(newLog + 1), Some(last))
  }

  function Max(a: nat, b: nat): nat {
    if a < b then b else a
  }

  ghost predicate NextCrash(db: Db, cut: Cut, parts: seq<seq<Entry>>, tables: seq<File>, newLog: nat, db2: Db) {
    && LogsOk(db) && CutOk(db, cut)
    && LastNextFile(db.manifest).Some? && LastSequence(db.manifest).Some?
    && var log := SurvivingLog(db, cut);
       var last := Max(LastSequence(db.manifest).value, MaxSequence(log));
       var edit := RecoveryEdit(tables, newLog, last);
       && Flatten(parts) == LogEntries(log) && RecoveredTables(parts, tables, LastNextFile(db.manifest).value + 1)
       && (forall n :: n in db.logs ==> n < newLog) && (forall f :: f in tables ==> f.number < newLog)
       && LastNextFile(db.manifest).value < newLog
       && Installs(db.v, edit, db2.v)
       && db2 == Db(db2.v, [], None, last, [], map[newLog := []], newLog, newLog, newLog + 1,
                    [SnapshotEdit(db.v), edit], db.flushed + LogEntries(log), db.floor)
  }

  // ---------------------------------------------------------------- the recovered history

  /** Nothing was lost from the older log, or nothing is left of the newer one. */
  ghost predicate NoGap(db: Db, cut: Cut)
    requires LogsOk(db) && CutOk(db, cut)
  {
    LogEntries(OlderLog(db)[cut.older..]) == [] || LogEntries(db.logs[db.logFile][..cut.newer]) == []
  }

  /** The history and what survives of it, side by side. */
  lemma HistoryCut(db: Db, cut: Cut)
    requires LogsOk(db) && CutOk(db, cut)
    ensures var older, newer := OlderLog(db), db.logs[db.logFile];
            && LogEntries(older) == ImmHistory(db)
            && LogEntries(older) == LogEntries(older[..cut.older]) + LogEntries(older[cut.older..])
            && LogEntries(newer) == LogEntries(newer[..cut.newer]) + LogEntries(newer[cut.newer..])
            && LogEntries(SurvivingLog(db, cut)) == LogEntries(older[..cut.older]) + LogEntries(newer[..cut.newer])
            && History(db) == db.flushed + LogEntries(older) + LogEntries(newer)
  {
    hide LogEntries;
    var older, newer := OlderLog(db), db.logs[db.logFile];
    NoLog();
    assert older == older[..cut.older] + older[cut.older..] && newer == newer[..cut.newer] + newer[cut.newer..];
    LogConcat(older[..cut.older], older[cut.older..]);
    LogConcat(newer[..cut.newer], newer[cut.newer..]);
    LogConcat(older[..cut.older], newer[..cut.newer]);
  }

  /** Leaving out the middle of an increasing history keeps it increasing, and leaves a prefix exactly
      if the middle or what follows it is empty. */
  lemma LeaveOut(f: seq<Entry>, a: seq<Entry>, lost: seq<Entry>, b: seq<Entry>, tail: seq<Entry>)
    requires Increasing(f + (a + lost) + (b + tail))
    ensures Increasing(f + (a + b)) && (forall e :: e in f + (a + b) ==> e in f + (a + lost) + (b + tail))
    ensures f + (a + b) <= f + (a + lost) + (b + tail) <==> lost == [] || b == []
  {
    var h, r := f + (a + lost) + (b + tail), f + (a + b);
    var n, m := |f| + |a|, |lost|;
    assert forall i :: 0 <= i < |r| ==> r[i] == h[if i < n then i else i + m];
    if lost != [] && b != [] {
      assert r[n] == h[n + m] && h[n].ik.seqno < h[n + m].ik.seqno;
    } else if lost == [] {
      assert r == h[..|r|];
    } else {
      assert r == h[..n];
    }
  }

  /** What survives is part of the history, in order. It is a prefix exactly if there is no gap, and
      without a lost tail it is the whole history. */
  lemma SurvivingHistory(db: Db, cut: Cut)
    requires LogsOk(db) && CutOk(db, cut) && Increasing(History(db))
    ensures var r := db.flushed + LogEntries(SurvivingLog(db, cut));
            && Increasing(r) && (forall e :: e in r ==> e in History(db)) && db.flushed <= r
            && (r <= History(db) <==> NoGap(db, cut))
            && (cut.older == |OlderLog(db)| ==> db.flushed + ImmHistory(db) <= r)
            && (cut == Cut(|OlderLog(db)|, |db.logs[db.logFile]|) ==> r == History(db))
  {
    var older, newer := OlderLog(db), db.logs[db.logFile];
    HistoryCut(db, cut);
    hide LogEntries, Increasing, History, SurvivingLog, ImmHistory;
    LeaveOut(db.flushed, LogEntries(older[..cut.older]), LogEntries(older[cut.older..]),
             LogEntries(newer[..cut.newer]), LogEntries(newer[cut.newer..]));
    assert cut.older == |older| ==> older[..cut.older] == older;
    assert cut.newer == |newer| ==> newer[..cut.newer] == newer;
    Reassociate(db.flushed, LogEntries(older[..cut.older]), LogEntries(newer[..cut.newer]));
  }

  lemma NoLog()
    ensures LogEntries([]) == []
  {
  }

  lemma SurvivingBounds(db: Db, cut: Cut)
    requires LogsOk(db) && CutOk(db, cut)
    ensures MaxSequence(SurvivingLog(db, cut)) <= db.lastSequence
    ensures forall e :: e in LogEntries(SurvivingLog(db, cut)) ==> e.ik.seqno <= MaxSequence(SurvivingLog(db, cut))
  {
    MaxSequenceBounds(SurvivingLog(db, cut), db.lastSequence);
  }

  // ---------------------------------------------------------------- placing the tables

  ghost predicate Grown(v: Version, fs: set<File>, w: Version) {
    && |v| == |w| == NUM_LEVELS && Ordered(w[0]) && Files(w[0]) == Files(v[0]) + fs
    && forall l :: 1 <= l < NUM_LEVELS ==> w[l] == v[l]
  }

  ghost predicate Refines(v: Version, h: seq<Entry>, floor: nat) {
    VersionOk(v) && All(v) <= Content(h) && Agrees(All(v), Content(h), floor)
  }

  lemma TableOk(number: nat, size: nat, part: seq<Entry>)
    requires Increasing(part) && InsertAll([], part) != [] && forall e :: e in part ==> e.ik.seqno <= MAX_SEQUENCE
    ensures FileOk(TableOf(number, size, InsertAll([], part)))
    ensures Content(InsertAll([], part)) == Content(part)
  {
    InsertAllSorted([], part);
    forall e | e in InsertAll([], part) ensures e.ik.seqno <= MAX_SEQUENCE {
      assert e in Content(InsertAll([], part));
    }
  }

  lemma PlaceOne(v: Version, h: seq<Entry>, part: seq<Entry>, f: File, floor: nat, next: nat) returns (w: Version)
    requires Refines(v, h, floor) && Increasing(h + part) && FileOk(f) && Content(f.entries) == Content(part)
    requires NumbersOk(v, next) && next <= f.number
    ensures Refines(w, h + part, floor) && Placed(v, 0, f, w) && NumbersOk(w, f.number + 1)
  {
    assert |v| == NUM_LEVELS && Ordered(v[0]) by { assert LevelOk(v[0]); }
    assert forall g :: g in v[0] ==> g.number != f.number;
    w := v[0 := InsertOrdered(v[0], f)];
    InsertOrderedOrdered(v[0], f);
    assert Placed(v, 0, f, w);
    assert Picked(v, 0, f.smallest.ukey, f.largest.ukey);
    assert NumbersOk(w, f.number + 1) by {
      forall l, g: File | 0 <= l < |w| && g in w[l] ensures g in v[l] || (l == 0 && g == f) {
        if l == 0 { assert g in Files(w[0]); }
      }
    }
    hide VersionOk, Placed, NumbersOk, Agrees, Picked;
    FlushedAgrees(v, 0, f, w, h, part, floor, next);
  }

  lemma GrownByOne(v: Version, fs: set<File>, mid: Version, f: File, w: Version)
    requires Grown(v, fs, mid) && Placed(mid, 0, f, w)
    ensures Grown(v, fs + {f}, w)
  {
  }

  ghost function NextAfter(tables: seq<File>, next: nat): nat {
    if tables == [] then next else tables[|tables| - 1].number + 1
  }

  lemma {:induction false} PlaceAll(v: Version, h: seq<Entry>, parts: seq<seq<Entry>>, tables: seq<File>, floor: nat, next: nat)
    returns (w: Version)
    requires Refines(v, h, floor) && Increasing(h + Flatten(parts)) && NumbersOk(v, next)
    requires RecoveredTables(parts, tables, next)
    requires forall e :: e in Flatten(parts) ==> e.ik.seqno <= MAX_SEQUENCE
    ensures Refines(w, h + Flatten(parts), floor) && Grown(v, Files(tables), w)
    ensures NumbersOk(w, NextAfter(tables, next))
    decreases |parts|
  {
    hide *;
    if parts == [] {
      w := v;
      GrownNone(v, h, floor, parts, tables, next);
    } else {
      var n := |parts| - 1;
      var front, part := parts[..n], parts[n];
      TablesSplit(h, parts, tables, next);
      var f := tables[n];
      IncreasingParts(h + Flatten(front), part);
      var mid := PlaceAll(v, h, front, tables[..n], floor, next);
      w := PlaceOne(mid, h + Flatten(front), part, f, floor, NextAfter(tables[..n], next));
      GrownByOne(v, Files(tables[..n]), mid, f, w);
    }
  }

  lemma GrownNone(v: Version, h: seq<Entry>, floor: nat, parts: seq<seq<Entry>>, tables: seq<File>, next: nat)
    requires Refines(v, h, floor) && parts == [] && RecoveredTables(parts, tables, next)
    ensures h + Flatten(parts) == h && Grown(v, Files(tables), v) && NextAfter(tables, next) == next
  {
    hide Agrees;
    assert LevelOk(v[0]);
    assert Files(tables) == {};
  }

  lemma TablesFront(parts: seq<seq<Entry>>, tables: seq<File>, next: nat)
    requires parts != [] && RecoveredTables(parts, tables, next)
    ensures |tables| == |parts|
    ensures RecoveredTables(parts[..|parts| - 1], tables[..|parts| - 1], next)
    ensures NextAfter(tables[..|parts| - 1], next) <= tables[|parts| - 1].number
    ensures NextAfter(tables, next) == tables[|parts| - 1].number + 1
    ensures InsertAll([], parts[|parts| - 1]) != []
    ensures tables[|parts| - 1] == TableOf(tables[|parts| - 1].number, tables[|parts| - 1].size, InsertAll([], parts[|parts| - 1]))
  {
    hide InsertAll, TableOf;
    var n := |parts| - 1;
    assert forall i :: 0 <= i < n ==> parts[..n][i] == parts[i] && tables[..n][i] == tables[i];
  }

  lemma FlattenLast(h: seq<Entry>, parts: seq<seq<Entry>>)
    requires parts != []
    ensures h + Flatten(parts) == (h + Flatten(parts[..|parts| - 1])) + parts[|parts| - 1]
    ensures forall e :: e in Flatten(parts) <==> e in Flatten(parts[..|parts| - 1]) || e in parts[|parts| - 1]
  {
    var n := |parts| - 1;
    assert Flatten(parts) == Flatten(parts[..n]) + parts[n];
    hide Flatten;
    Reassociate(h, Flatten(parts[..n]), parts[n]);
  }

  lemma TablesSplit(h: seq<Entry>, parts: seq<seq<Entry>>, tables: seq<File>, next: nat)
    requires parts != [] && RecoveredTables(parts, tables, next) && Increasing(h + Flatten(parts))
    requires forall e :: e in Flatten(parts) ==> e.ik.seqno <= MAX_SEQUENCE
    ensures var n := |parts| - 1;
            && |tables| == n + 1
            && h + Flatten(parts) == (h + Flatten(parts[..n])) + parts[n]
            && RecoveredTables(parts[..n], tables[..n], next) && NextAfter(tables[..n], next) <= tables[n].number
            && NextAfter(tables, next) == tables[n].number + 1
            && (forall e :: e in Flatten(parts[..n]) ==> e.ik.seqno <= MAX_SEQUENCE)
            && FileOk(tables[n]) && Content(tables[n].entries) == Content(parts[n])
            && Files(tables) == Files(tables[..n]) + {tables[n]}
  {
    hide *;
    var n := |parts| - 1;
    FlattenLast(h, parts);
    TablesFront(parts, tables, next);
    IncreasingParts(h + Flatten(parts[..n]), parts[n]);
    TableOk(tables[n].number, tables[n].size, parts[n]);
    TableEntries(tables[n].number, tables[n].size, InsertAll([], parts[n]));
    FilesLast(tables);
  }

  lemma TableEntries(number: nat, size: nat, es: seq<Entry>)
    requires es != []
    ensures TableOf(number, size, es).entries == es
  {
  }

  lemma VersionLength(v: Version)
    requires VersionOk(v)
    ensures |v| == NUM_LEVELS
  {
  }

  // ---------------------------------------------------------------- the new manifest

  lemma {:induction false} AddsMembers(v: Version, l: nat)
    ensures forall p :: p in AddsFrom(v, l) <==> l <= p.0 < |v| && p.1 in v[p.0]
    decreases |v| - l
  {
    if l < |v| {
      AddsMembers(v, l + 1);
      var here := seq(|v[l]|, i requires 0 <= i < |v[l]| => (l, v[l][i]));
      forall f | f in v[l] ensures (l, f) in here {
        var i :| 0 <= i < |v[l]| && v[l][i] == f;
        assert here[i] == (l, f);
      }
    }
  }

  lemma {:induction false} AddsDistinct(v: Version, l: nat, next: nat)
    requires NumbersOk(v, next) && forall m :: 0 <= m < |v| ==> LevelOk(v[m])
    ensures forall i, j :: 0 <= i < j < |AddsFrom(v, l)| ==> AddsFrom(v, l)[i].1.number != AddsFrom(v, l)[j].1.number
    decreases |v| - l
  {
    if l < |v| {
      AddsDistinct(v, l + 1, next);
      AddsMembers(v, l + 1);
      var here, rest := seq(|v[l]|, i requires 0 <= i < |v[l]| => (l, v[l][i])), AddsFrom(v, l + 1);
      var all := here + rest;
      forall i, j | 0 <= i < j < |all| ensures all[i].1.number != all[j].1.number {
        if j < |here| {
          assert BySmallest(v[l][i], v[l][j]);
          assert v[l][i] in v[l] && v[l][j] in v[l];
        } else if i < |here| {
          assert all[i].1 in v[l];
          assert all[j] in rest;
        }
      }
    }
  }

  lemma SnapshotInstalls(v: Version)
    requires VersionOk(v)
    ensures EditOk(SnapshotEdit(v)) && Installs(EMPTY_VERSION, SnapshotEdit(v), v)
    ensures forall l :: 0 <= l < NUM_LEVELS ==> AddedAt(SnapshotEdit(v), l) == Files(v[l])
  {
    var e := SnapshotEdit(v);
    AddsMembers(v, 0);
    VersionOrdered(v);
    hide LevelOk, LevelSorted, Level0Ok, NewerAbove, AddsFrom;
    forall l | 0 <= l < NUM_LEVELS ensures AddedAt(e, l) == Files(v[l]) && After({}, e, l) == Files(v[l]) {
      forall f | f in Files(v[l]) ensures f in AddedAt(e, l) {
        assert (l, f) in e.added;
      }
      AfterAdd({}, e, l);
    }
    assert forall l :: 0 <= l < NUM_LEVELS ==> Files(EMPTY_VERSION[l]) == {};
  }

  /** The new manifest starts with a snapshot that describes the recovered version. */
  lemma SnapshotManifest(v: Version, next: nat)
    requires VersionOk(v) && NumbersOk(v, next)
    ensures ManifestOk([SnapshotEdit(v)]) && Describes([SnapshotEdit(v)], v) && AddedOk([SnapshotEdit(v)], v, next)
  {
    var e := SnapshotEdit(v);
    assert forall l :: 0 <= l < NUM_LEVELS ==> LevelOk(v[l]);
    AddsDistinct(v, 0, next);
    SnapshotInstalls(v);
    assert ManifestOk([]) && Describes([], EMPTY_VERSION) by { EmptyManifest(); }
    assert forall l :: 0 <= l < NUM_LEVELS ==> Accumulated([], l).add == {};
    hide VersionOk, LevelOk, Installs, AddsFrom;
    forall l | 0 <= l < NUM_LEVELS ensures FreshAt(Accumulated([], l).add, e, l) {
      assert Numbers({}) == {};
    }
    LogEdit([], EMPTY_VERSION, e, v);
    assert [] + [e] == [e];
  }

  lemma EmptyManifest()
    ensures ManifestOk([]) && Describes([], EMPTY_VERSION)
  {
    assert forall l :: 0 <= l < NUM_LEVELS ==> Files(EMPTY_VERSION[l]) == {};
  }

  lemma RecoveryAdds(tables: seq<File>, newLog: nat, last: nat)
    ensures var e := RecoveryEdit(tables, newLog, last);
            && EditOk(e) && e.deleted == {}
            && AddedAt(e, 0) == Files(tables) && (forall l :: 1 <= l < NUM_LEVELS ==> AddedAt(e, l) == {})
            && (forall p :: p in e.added ==> p.1 in tables)
            && |e.added| == |tables| && forall i :: 0 <= i < |tables| ==> e.added[i].1 == tables[i]
  {
    var e := RecoveryEdit(tables, newLog, last);
    forall f | f in Files(tables) ensures f in AddedAt(e, 0) {
      var i :| 0 <= i < |tables| && tables[i] == f;
      assert e.added[i] == (0, f);
    }
  }

  lemma RecoveryNumbers(parts: seq<seq<Entry>>, tables: seq<File>, next: nat, newLog: nat, last: nat)
    requires RecoveredTables(parts, tables, next) && forall f :: f in tables ==> f.number < newLog
    ensures NewNumbers(RecoveryEdit(tables, newLog, last), next, newLog + 1)
  {
    RecoveryAdds(tables, newLog, last);
    hide TableOf, InsertAll;
    assert forall i :: 0 <= i < |tables| ==> tables[i] in tables;
  }

  lemma GrownInstalled(v: Version, tables: seq<File>, newLog: nat, last: nat, w: Version, w2: Version)
    requires Installs(v, RecoveryEdit(tables, newLog, last), w2) && Grown(v, Files(tables), w)
    requires forall l :: 0 <= l < NUM_LEVELS ==> Ordered(v[l])
    ensures w == w2
  {
    RecoveryAdds(tables, newLog, last);
    var e := RecoveryEdit(tables, newLog, last);
    forall l | 0 <= l < NUM_LEVELS ensures w[l] == w2[l] {
      AfterAdd(Files(v[l]), e, l);
      OrderedUnique(w[l], w2[l]);
    }
  }

  // ---------------------------------------------------------------- the crash step

  lemma CrashParts(db: Db, cut: Cut, parts: seq<seq<Entry>>, tables: seq<File>, newLog: nat, db2: Db)
    requires NextCrash(db, cut, parts, tables, newLog, db2)
    ensures LogsOk(db) && CutOk(db, cut)
    ensures LastNextFile(db.manifest).Some? && LastSequence(db.manifest).Some?
    ensures var log := SurvivingLog(db, cut);
            var last := Max(LastSequence(db.manifest).value, MaxSequence(log));
            var edit := RecoveryEdit(tables, newLog, last);
            && Flatten(parts) == LogEntries(log) && RecoveredTables(parts, tables, LastNextFile(db.manifest).value + 1)
            && (forall n :: n in db.logs ==> n < newLog) && (forall f :: f in tables ==> f.number < newLog)
            && LastNextFile(db.manifest).value < newLog
            && Installs(db.v, edit, db2.v)
            && db2 == Db(db2.v, [], None, last, [], map[newLog := []], newLog, newLog, newLog + 1,
                         [SnapshotEdit(db.v), edit], db.flushed + LogEntries(log), db.floor)
  {
    hide LogsOk, SurvivingLog, RecoveredTables, Installs, RecoveryEdit, SnapshotEdit, LogEntries, MaxSequence, Flatten;
  }

  lemma CrashFiles(db: Db, cut: Cut, parts: seq<seq<Entry>>, tables: seq<File>, newLog: nat, db2: Db)
    requires Inv(db) && NextCrash(db, cut, parts, tables, newLog, db2)
    ensures FilesOk(db2)
  {
    hide *;
    InvParts(db);
    FilesParts(db);
    CrashParts(db, cut, parts, tables, newLog, db2);
    var log := SurvivingLog(db, cut);
    var next := LastNextFile(db.manifest).value + 1;
    CrashHistory(db, cut);
    ManifestNumbers(db);
    RefinesIntro(db);
    VersionOrdered(db.v);
    var w := PlaceAll(db.v, db.flushed, parts, tables, db.floor, next);
    GrownInstalled(db.v, tables, newLog, Max(LastSequence(db.manifest).value, MaxSequence(log)), w, db2.v);
    RefinesElim(db2.v, db2.flushed, db2.floor);
    FilesIntro(db2);
  }

  lemma RefinesIntro(db: Db)
    requires FilesOk(db)
    ensures Refines(db.v, db.flushed, db.floor)
  {
    hide VersionOk, Agrees;
  }

  lemma RefinesElim(v: Version, h: seq<Entry>, floor: nat)
    requires Refines(v, h, floor)
    ensures VersionOk(v) && All(v) <= Content(h) && Agrees(All(v), Content(h), floor)
  {
    hide VersionOk, Agrees;
  }

  lemma ManifestNumbers(db: Db)
    requires DurableOk(db)
    ensures LastNextFile(db.manifest).Some? && NumbersOk(db.v, LastNextFile(db.manifest).value + 1)
    ensures NumbersOk(db.v, LastNextFile(db.manifest).value)
    ensures LastSequence(db.manifest).Some? && db.floor <= LastSequence(db.manifest).value <= db.lastSequence
    ensures forall e :: e in db.flushed ==> e.ik.seqno <= LastSequence(db.manifest).value
  {
    hide ManifestOk, Describes, AddedOk;
  }

  lemma CrashHistory(db: Db, cut: Cut)
    requires LogsOk(db) && HistoryOk(db) && CutOk(db, cut)
    ensures Increasing(db.flushed + LogEntries(SurvivingLog(db, cut)))
    ensures forall e :: e in LogEntries(SurvivingLog(db, cut)) ==> e.ik.seqno <= MAX_SEQUENCE
    ensures db.lastSequence < MAX_SEQUENCE
  {
    SurvivingHistory(db, cut);
    SurvivingBounds(db, cut);
  }

  lemma CrashDurable(db: Db, cut: Cut, parts: seq<seq<Entry>>, tables: seq<File>, newLog: nat, db2: Db)
    requires Inv(db) && NextCrash(db, cut, parts, tables, newLog, db2)
    ensures DurableOk(db2)
  {
    hide *;
    InvParts(db);
    FilesParts(db);
    ManifestNumbers(db);
    CrashParts(db, cut, parts, tables, newLog, db2);
    var log := SurvivingLog(db, cut);
    var next := LastNextFile(db.manifest).value + 1;
    var last := Max(LastSequence(db.manifest).value, MaxSequence(log));
    var snap, e := SnapshotEdit(db.v), RecoveryEdit(tables, newLog, last);
    SnapshotManifest(db.v, next);
    RecoveryAdds(tables, newLog, last);
    RecoveryNumbers(parts, tables, next, newLog, last);
    forall l | 0 <= l < NUM_LEVELS ensures FreshAt(Accumulated([snap], l).add, e, l) {
      NewNumbersFresh([snap], db.v, next, e, newLog + 1, l);
    }
    LogEdit([snap], db.v, e, db2.v);
    assert [snap] + [e] == [snap, e];
    NumbersAfter(db.v, next, e, db2.v, newLog + 1);
    AddedAfter([snap], db.v, next, e, [snap, e], db2.v, newLog + 1);
    RecoveryEditFields(tables, newLog, last);
    SurvivingBounds(db, cut);
    MaxBounds(LastSequence(db.manifest).value, MaxSequence(log));
    DurableIntro(db2);
  }

  lemma NewNumbersFresh(manifest: seq<Edit>, v: Version, next: nat, e: Edit, next2: nat, l: nat)
    requires AddedOk(manifest, v, next) && l < NUM_LEVELS && NewNumbers(e, next, next2)
    ensures FreshAt(Accumulated(manifest, l).add, e, l)
  {
    FreshNumbers(manifest, v, next, e, l);
  }

  lemma RecoveryEditFields(tables: seq<File>, newLog: nat, last: nat)
    ensures var e := RecoveryEdit(tables, newLog, last);
            e.logNumber == Some(newLog) && e.nextFile == Some(newLog + 1) && e.lastSequence == Some(last)
  {
  }

  lemma MaxBounds(a: nat, b: nat)
    ensures a <= Max(a, b) && b <= Max(a, b) && (Max(a, b) == a || Max(a, b) == b)
  {
  }

  /** What a crash leaves: only writes of the history and all that was flushed; a prefix of the history
      exactly if there is no gap, in particular if only the current log was cut; everything if nothing was. */
  ghost predicate Survives(db: Db, cut: Cut, db2: Db)
    requires LogsOk(db) && CutOk(db, cut) && LogsOk(db2)
  {
    && History(db2) == db.flushed + LogEntries(SurvivingLog(db, cut))
    && (forall e :: e in History(db2) ==> e in History(db)) && db.flushed <= History(db2)
    && (History(db2) <= History(db) <==> NoGap(db, cut))
    && (cut.older == |OlderLog(db)| ==> db.flushed + ImmHistory(db) <= History(db2) <= History(db))
    && (cut == Cut(|OlderLog(db)|, |db.logs[db.logFile]|) ==> History(db2) == History(db))
  }

  lemma CrashKeeps(db: Db, cut: Cut, parts: seq<seq<Entry>>, tables: seq<File>, newLog: nat, db2: Db)
    requires Inv(db) && NextCrash(db, cut, parts, tables, newLog, db2)
    ensures Inv(db2) && Survives(db, cut, db2)
  {
    hide *;
    InvParts(db);
    ManifestNumbers(db);
    CrashParts(db, cut, parts, tables, newLog, db2);
    CrashHistory(db, cut);
    IncreasingHistory(db);
    SurvivingHistory(db, cut);
    SurvivingBounds(db, cut);
    MaxBounds(LastSequence(db.manifest).value, MaxSequence(SurvivingLog(db, cut)));
    FreshLogs(db2, newLog);
    CrashFiles(db, cut, parts, tables, newLog, db2);
    CrashDurable(db, cut, parts, tables, newLog, db2);
    InvIntro(db2);
    SurvivesIntro(db, cut, db2);
  }

  lemma SurvivesIntro(db: Db, cut: Cut, db2: Db)
    requires LogsOk(db) && CutOk(db, cut) && LogsOk(db2) && Increasing(History(db))
    requires History(db2) == db.flushed + LogEntries(SurvivingLog(db, cut))
    ensures Survives(db, cut, db2)
  {
    NoLog();
    assert OlderLog(db)[|OlderLog(db)|..] == [];
    hide LogEntries, History, ImmHistory, SurvivingLog, Increasing;
    SurvivingHistory(db, cut);
  }

  lemma IncreasingHistory(db: Db)
    requires LogsOk(db) && HistoryOk(db)
    ensures Increasing(History(db))
  {
  }

  /** A freshly opened store: one empty log, an empty memtable, no snapshots. */
  lemma FreshLogs(db: Db, newLog: nat)
    requires db.logs == map[newLog := []] && db.logFile == db.logNumber == newLog && db.nextFile == newLog + 1
    requires db.mem == [] && db.imm == None && db.snapshots == [] && db.floor <= db.lastSequence < MAX_SEQUENCE
    requires Increasing(db.flushed) && forall e :: e in db.flushed ==> e.ik.seqno <= db.lastSequence
    ensures LogsOk(db) && History(db) == db.flushed && MemtablesOk(db) && HistoryOk(db) && SnapshotsOk(db)
  {
  }

  // ---------------------------------------------------------------- batch by batch

  lemma {:induction false} RecordIn(log: seq<Batch>, i: nat, j: nat)
    requires i < |log| && j < |log[i].ops|
    ensures Entry(IKey(log[i].ops[j].0, log[i].seqno + j), log[i].ops[j].1) in LogEntries(log)
    decreases |log|
  {
    var n := |log| - 1;
    if i == n {
      assert BatchEntries(log[n])[j] == Entry(IKey(log[i].ops[j].0, log[i].seqno + j), log[i].ops[j].1);
    } else {
      RecordIn(log[..n], i, j);
    }
  }

  /** Entries of an increasing history that were left out are nowhere in what remains. */
  lemma LeftOutGone(f: seq<Entry>, a: seq<Entry>, lost: seq<Entry>, b: seq<Entry>, tail: seq<Entry>, e: Entry)
    requires Increasing(f + (a + lost) + (b + tail)) && (e in lost || e in tail)
    ensures e !in f + (a + b)
  {
    var h, r := f + (a + lost) + (b + tail), f + (a + b);
    var n, m := |f| + |a|, |lost|;
    assert forall i :: 0 <= i < |r| ==> r[i] == h[if i < n then i else i + m];
    if e in lost {
      var k :| 0 <= k < m && lost[k] == e;
      assert h[n + k] == e;
    } else {
      var k :| 0 <= k < |tail| && tail[k] == e;
      assert h[n + m + |b| + k] == e;
    }
  }

  /** A logged batch survives a crash as a whole or not at all, and it survives exactly if its record
      lies in the part of its log that is left. */
  lemma CrashAtomic(db: Db, cut: Cut, parts: seq<seq<Entry>>, tables: seq<File>, newLog: nat, db2: Db, older: bool, i: nat, j: nat)
    requires Inv(db) && NextCrash(db, cut, parts, tables, newLog, db2)
    requires LogsOk(db) && CutOk(db, cut)
    requires var log := if older then OlderLog(db) else db.logs[db.logFile]; i < |log| && j < |log[i].ops|
    ensures Inv(db2) && LogsOk(db2) && db2.lastSequence <= db.lastSequence
    ensures var b := (if older then OlderLog(db) else db.logs[db.logFile])[i];
            var e := Entry(IKey(b.ops[j].0, b.seqno + j), b.ops[j].1);
            e in History(db) && (e in History(db2) <==> i < if older then cut.older else cut.newer)
  {
    hide *;
    InvParts(db);
    CrashKeeps(db, cut, parts, tables, newLog, db2);
    InvParts(db2);
    CrashLast(db, cut, parts, tables, newLog, db2);
    SurvivesIs(db, cut, db2);
    IncreasingHistory(db);
    HistoryCut(db, cut);
    CutLengths(db, cut);
    var o, n := OlderLog(db), db.logs[db.logFile];
    if older {
      RecordSide(o, cut.older, i, j);
    } else {
      RecordSide(n, cut.newer, i, j);
    }
    var b := (if older then o else n)[i];
    var e := Entry(IKey(b.ops[j].0, b.seqno + j), b.ops[j].1);
    Sides(db.flushed, LogEntries(o[..cut.older]), LogEntries(o[cut.older..]),
          LogEntries(n[..cut.newer]), LogEntries(n[cut.newer..]), e);
  }

  lemma Sides(f: seq<Entry>, a: seq<Entry>, lost: seq<Entry>, b: seq<Entry>, tail: seq<Entry>, e: Entry)
    requires Increasing(f + (a + lost) + (b + tail))
    ensures (e in lost || e in tail) ==> e !in f + (a + b) && e in f + (a + lost) + (b + tail)
    ensures (e in a || e in b) ==> e in f + (a + b) && e in f + (a + lost) + (b + tail)
  {
    hide Increasing;
    if e in lost || e in tail { LeftOutGone(f, a, lost, b, tail, e); }
  }

  lemma RecordSide(log: seq<Batch>, k: nat, i: nat, j: nat)
    requires k <= |log| && i < |log| && j < |log[i].ops|
    ensures var e := Entry(IKey(log[i].ops[j].0, log[i].seqno + j), log[i].ops[j].1);
            if i < k then e in LogEntries(log[..k]) else e in LogEntries(log[k..])
  {
    hide LogEntries;
    if i < k {
      RecordIn(log[..k], i, j);
    } else {
      assert log[k..][i - k] == log[i];
      RecordIn(log[k..], i - k, j);
    }
  }

  lemma CutLengths(db: Db, cut: Cut)
    requires LogsOk(db) && CutOk(db, cut)
    ensures db.logFile in db.logs && cut.older <= |OlderLog(db)| && cut.newer <= |db.logs[db.logFile]|
  {
  }

  lemma SurvivesIs(db: Db, cut: Cut, db2: Db)
    requires LogsOk(db) && CutOk(db, cut) && LogsOk(db2) && Survives(db, cut, db2)
    ensures History(db2) == db.flushed + LogEntries(SurvivingLog(db, cut))
  {
    hide LogEntries, History, SurvivingLog;
  }

  lemma CrashLast(db: Db, cut: Cut, parts: seq<seq<Entry>>, tables: seq<File>, newLog: nat, db2: Db)
    requires Inv(db) && NextCrash(db, cut, parts, tables, newLog, db2) && LogsOk(db) && CutOk(db, cut)
    ensures db2.lastSequence <= db.lastSequence
  {
    hide *;
    InvParts(db);
    ManifestNumbers(db);
    CrashParts(db, cut, parts, tables, newLog, db2);
    SurvivingBounds(db, cut);
    MaxBounds(LastSequence(db.manifest).value, MaxSequence(SurvivingLog(db, cut)));
  }
}
