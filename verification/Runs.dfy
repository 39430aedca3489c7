/** Whole runs of the store: every reachable state refines its history. */
module Runs {
  import opened Optional
  import opened Keys
  import opened Versions
  import opened Preservation
  import opened Manifest
  import opened Store
  import opened Batches
  import opened Steps
  import opened Recovery

  /** A database just created and opened: an empty version, log number 3, file numbers from 4 on. */
  const INIT: Db := Db(EMPTY_VERSION, [], None, 0, [], map[3 := []], 3, 3, 4,
                       [SnapshotEdit(EMPTY_VERSION), RecoveryEdit([], 3, 0)], [], 0)

  ghost predicate Next(db: Db, a: Action, db2: Db) {
    match a
    case Write(ops) => NextWrite(db, ops, db2)
    case UseUp(count) => NextUseUp(db, count, db2)
    case SwitchMemtable => NextSwitch(db, db2)
    case Flush(p, size) => NextFlush(db, p, size, db2)
    case Compact(level, in0, in1, outs) => NextCompact(db, level, in0, in1, outs, db2)
    case Move(level, f) => NextMove(db, level, f, db2)
    case TakeSnapshot => db2 == db.(snapshots := db.snapshots + [db.lastSequence])
    case ReleaseSnapshot(i) =>
      i < |db.snapshots| && db2 == db.(snapshots := db.snapshots[..i] + db.snapshots[i + 1..])
    case CrashAndRecover(older, newer, parts, tables, newLog) => NextCrash(db, Cut(older, newer), parts, tables, newLog, db2)
  }

  /** The condition under which the code's choice of compaction inputs is sound. */
  ghost predicate Safe(db: Db, a: Action) {
    a.Compact? && a.level + 1 < |db.v| ==> NoResurrection(db.v, a.level, a.in0, a.in1, SmallestSnapshot(db))
  }

  lemma InitInv()
    ensures Inv(INIT) && History(INIT) == []
  {
    FreshLogs(INIT, 3);
    InitFiles();
    InitDurable(INIT);
    hide *;
    InvIntro(INIT);
  }

  lemma InitFiles()
    ensures FilesOk(INIT)
  {
    EmptyOk();
    assert Agrees({}, {}, 0);
    assert Content([]) == {};
    hide VersionOk, Agrees, All;
    FilesIntro(INIT);
  }

  lemma InitDurable(db: Db)
    requires db == INIT
    ensures DurableOk(db)
  {
    var snap, e := SnapshotEdit(EMPTY_VERSION), RecoveryEdit([], 3, 0);
    assert db.v == EMPTY_VERSION && db.manifest == [snap, e] && db.flushed == [];
    assert db.logNumber == 3 && db.nextFile == 4 && db.lastSequence == 0 && db.floor == 0;
    assert [snap] + [e] == [snap, e];
    assert NewNumbers(e, 3, 4);
    hide *;
    EmptyOk();
    SnapshotManifest(EMPTY_VERSION, 3);
    RecoveryAdds([], 3, 0);
    EmptyInstalls();
    forall l | 0 <= l < NUM_LEVELS ensures FreshAt(Accumulated([snap], l).add, e, l) {
      NewNumbersFresh([snap], EMPTY_VERSION, 3, e, 4, l);
    }
    LogEdit([snap], EMPTY_VERSION, e, EMPTY_VERSION);
    AddedAfter([snap], EMPTY_VERSION, 3, e, [snap, e], EMPTY_VERSION, 4);
    RecoveryEditFields([], 3, 0);
    DurableIntro(db);
  }

  lemma EmptyOk()
    ensures VersionOk(EMPTY_VERSION) && All(EMPTY_VERSION) == {} && forall n :: NumbersOk(EMPTY_VERSION, n)
  {
    assert forall l :: 0 <= l < 7 ==> EMPTY_VERSION[l] == [];
    assert Files([]) == {};
    assert forall l :: 0 <= l < 7 ==> LevelContent(EMPTY_VERSION[l]) == {};
    assert LevelOk([]) && LevelSorted([]);
  }

  lemma EmptyInstalls()
    ensures Installs(EMPTY_VERSION, RecoveryEdit([], 3, 0), EMPTY_VERSION)
  {
    forall l | 0 <= l < NUM_LEVELS ensures After({}, RecoveryEdit([], 3, 0), l) == {} {
      AfterAdd({}, RecoveryEdit([], 3, 0), l);
    }
    assert forall l :: 0 <= l < 7 ==> EMPTY_VERSION[l] == [];
    assert Files([]) == {};
  }

  /** Every step keeps the invariant and does to the history what its action says. */
  lemma NextKeeps(db: Db, a: Action, db2: Db)
    requires Inv(db) && Next(db, a, db2) && Safe(db, a)
    ensures Inv(db2)
    ensures a.Write? ==> History(db2) == History(db) + BatchEntries(Batch(db.lastSequence + 1, a.ops))
    ensures a.CrashAndRecover? ==> CutOk(db, Cut(a.older, a.newer)) && Survives(db, Cut(a.older, a.newer), db2)
    ensures !a.Write? && !a.CrashAndRecover? ==> History(db2) == History(db)
    ensures !a.CrashAndRecover? ==> db.lastSequence <= db2.lastSequence && db.floor <= db2.floor
  {
    InvParts(db);
    SnapshotFloor(db);
    hide Inv, LogsOk, MemtablesOk, HistoryOk, FilesOk, SnapshotsOk, DurableOk, History, ImmHistory, NextCrash, CutOk, Survives;
    match a {
      case Write(ops) => WriteKeeps(db, ops, db2);
      case UseUp(count) => UseUpKeeps(db, count, db2);
      case SwitchMemtable => SwitchKeeps(db, db2);
      case Flush(p, size) => FlushKeeps(db, p, size, db2);
      case Compact(level, in0, in1, outs) => CompactKeeps(db, level, in0, in1, outs, db2);
      case Move(level, f) => MoveKeeps(db, level, f, db2);
      case TakeSnapshot => SnapshotKeeps(db, db2);
      case ReleaseSnapshot(i) => SnapshotKeeps(db, db2);
      case CrashAndRecover(older, newer, parts, tables, newLog) => CrashKeeps(db, Cut(older, newer), parts, tables, newLog, db2);
    }
  }

  lemma SnapshotKeeps(db: Db, db2: Db)
    requires Inv(db) && (Next(db, TakeSnapshot, db2) || exists i :: Next(db, ReleaseSnapshot(i), db2))
    ensures Inv(db2) && History(db2) == History(db)
  {
    hide *;
    InvParts(db);
    SnapshotStep(db, db2);
    OnlySnapshots(db, db2);
    InvIntro(db2);
  }

  lemma SnapshotStep(db: Db, db2: Db)
    requires SnapshotsOk(db) && (Next(db, TakeSnapshot, db2) || exists i :: Next(db, ReleaseSnapshot(i), db2))
    ensures SnapshotsOk(db2) && db2 == db.(snapshots := db2.snapshots)
  {
  }

  lemma OnlySnapshots(db: Db, db2: Db)
    requires LogsOk(db) && MemtablesOk(db) && HistoryOk(db) && FilesOk(db) && DurableOk(db) && db2 == db.(snapshots := db2.snapshots)
    ensures LogsOk(db2) && MemtablesOk(db2) && HistoryOk(db2) && FilesOk(db2) && DurableOk(db2) && History(db2) == History(db)
  {
    hide VersionOk, Agrees, ManifestOk, Describes, AddedOk, NumbersOk, LogEntries;
    assert LogsOk(db2) && MemHistory(db2) == MemHistory(db) && ImmHistory(db2) == ImmHistory(db);
  }

  // ---------------------------------------------------------------- runs

  ghost predicate IsRun(states: seq<Db>, actions: seq<Action>) {
    && |states| == |actions| + 1 && states[0] == INIT
    && forall i :: 0 <= i < |actions| ==> Next(states[i], actions[i], states[i + 1]) && Safe(states[i], actions[i])
  }

  lemma RunStep(states: seq<Db>, actions: seq<Action>, n: nat)
    requires IsRun(states, actions) && n + 1 < |states|
    ensures n < |actions| && Next(states[n], actions[n], states[n + 1]) && Safe(states[n], actions[n])
  {
    hide Next, Safe;
  }

  lemma RunStarts(states: seq<Db>, actions: seq<Action>)
    requires IsRun(states, actions)
    ensures states[0] == INIT
  {
    hide Next, Safe;
  }

  lemma {:induction false} RunKeepsInv(states: seq<Db>, actions: seq<Action>, n: nat)
    requires IsRun(states, actions) && n < |states|
    ensures Inv(states[n])
    decreases n
  {
    hide *;
    if n == 0 {
      InitInv();
      RunStarts(states, actions);
    } else {
      RunKeepsInv(states, actions, n - 1);
      RunStep(states, actions, n - 1);
      NextKeeps(states[n - 1], actions[n - 1], states[n]);
    }
  }

  ghost predicate RunTo(states: seq<Db>, actions: seq<Action>, db: Db) {
    IsRun(states, actions) && states[|actions|] == db
  }

  ghost predicate Reachable(db: Db) {
    exists states, actions :: RunTo(states, actions, db)
  }

  lemma ReachInit()
    ensures Reachable(INIT)
  {
    assert RunTo([INIT], [], INIT);
  }

  lemma Reach(db: Db, a: Action, db2: Db)
    requires Reachable(db) && Next(db, a, db2) && Safe(db, a)
    ensures Reachable(db2)
  {
    hide Next, Safe, RunTo;
    var states, actions :| RunTo(states, actions, db);
    LongerRun(states, actions, db, a, db2);
  }

  lemma LongerRun(states: seq<Db>, actions: seq<Action>, db: Db, a: Action, db2: Db)
    requires RunTo(states, actions, db) && Next(db, a, db2) && Safe(db, a)
    ensures RunTo(states + [db2], actions + [a], db2)
  {
    hide Next, Safe;
    forall i | 0 <= i <= |actions|
      ensures Next((states + [db2])[i], (actions + [a])[i], (states + [db2])[i + 1]) && Safe((states + [db2])[i], (actions + [a])[i])
    {
      if i < |actions| { RunStep(states, actions, i); }
    }
  }

  /** A write is always possible while sequence numbers last. */
  lemma WriteEnabled(db: Db, ops: seq<(UserKey, Op)>) returns (db2: Db)
    requires LogsOk(db) && db.lastSequence + |ops| < MAX_SEQUENCE
    ensures NextWrite(db, ops, db2) && Next(db, Write(ops), db2)
    ensures db2.lastSequence == db.lastSequence + |ops|
    ensures Content(db2.mem) == Content(db.mem) + Content(BatchEntries(Batch(db.lastSequence + 1, ops)))
  {
    hide InsertAll, BatchEntries;
    var b := Batch(db.lastSequence + 1, ops);
    db2 := db.(logs := db.logs[db.logFile := db.logs[db.logFile] + [b]],
               mem := InsertAll(db.mem, BatchEntries(b)), lastSequence := db.lastSequence + |ops|);
  }

  /** The read path of the code: memtable, immutable memtable, then the levels. */
  ghost function ReadAt(db: Db, k: UserKey, s: nat): Option<Entry> {
    var m := TableGet(db.mem, k, s);
    var i := if db.imm.Some? then TableGet(db.imm.value, k, s) else None;
    if m.Some? then m else if i.Some? then i else Find(All(db.v), k, s)
  }

  /** In every reachable state, a read at a live snapshot or at the newest state returns the newest
      committed write at or below it. */
  lemma RunReadsHistory(states: seq<Db>, actions: seq<Action>, n: nat, k: UserKey, s: nat)
    requires IsRun(states, actions) && n < |states|
    requires s in states[n].snapshots || s == states[n].lastSequence
    ensures Inv(states[n]) && ValueOf(ReadAt(states[n], k, s)) == ValueOf(HistoryFind(History(states[n]), k, s))
  {
    RunKeepsInv(states, actions, n);
    InvParts(states[n]);
    hide IsRun, VersionOk, Agrees, DurableOk;
    assert s >= states[n].floor;
    LayersRefineHistory(states[n], k, s, ReadAt(states[n], k, s));
  }

  /** Repeatable reads: as long as there is no crash, what a snapshot sees never changes, whatever is
      written, flushed, moved or compacted meanwhile. */
  lemma {:induction false} SnapshotReadsRepeat(states: seq<Db>, actions: seq<Action>, i: nat, j: nat, k: UserKey, s: nat)
    requires IsRun(states, actions) && i <= j < |states| && s <= states[i].lastSequence
    requires forall n :: i <= n < j ==> !actions[n].CrashAndRecover?
    ensures Inv(states[i]) && Inv(states[j]) && s <= states[j].lastSequence
    ensures HistoryFind(History(states[j]), k, s) == HistoryFind(History(states[i]), k, s)
    decreases j - i
  {
    hide *;
    if i == j {
      RunKeepsInv(states, actions, i);
    } else {
      RunStep(states, actions, j - 1);
      SnapshotReadsRepeat(states, actions, i, j - 1, k, s);
      StepReadsRepeat(states[j - 1], actions[j - 1], states[j], k, s);
    }
  }

  lemma StepReadsRepeat(db: Db, a: Action, db2: Db, k: UserKey, s: nat)
    requires Inv(db) && Next(db, a, db2) && Safe(db, a) && !a.CrashAndRecover? && s <= db.lastSequence
    ensures Inv(db2) && s <= db2.lastSequence && HistoryFind(History(db2), k, s) == HistoryFind(History(db), k, s)
  {
    hide *;
    NextKeeps(db, a, db2);
    InvParts(db);
    if a.Write? {
      BatchLater(db.lastSequence, a.ops);
      HistoryFindPrefix(History(db), BatchEntries(Batch(db.lastSequence + 1, a.ops)), k, s);
    }
  }

  // ---------------------------------------------------------------- reads in terms of the writes alone

  /** Nothing in `actions[from..to]` writes `k` or crashes. */
  ghost predicate Untouched(actions: seq<Action>, from: nat, to: nat, k: UserKey) {
    forall j :: from <= j < to <= |actions| ==>
      !actions[j].CrashAndRecover? && (actions[j].Write? ==> !Names(actions[j].ops, k))
  }

  lemma StepUntouched(db: Db, a: Action, db2: Db, k: UserKey)
    requires Inv(db) && Next(db, a, db2) && Safe(db, a)
    requires !a.CrashAndRecover? && (a.Write? ==> !Names(a.ops, k))
    ensures Inv(db2)
    ensures ValueOf(HistoryFind(History(db2), k, db2.lastSequence)) == ValueOf(HistoryFind(History(db), k, db.lastSequence))
  {
    hide *;
    NextKeeps(db, a, db2);
    if a.Write? {
      NextIsWrite(db, a, db2);
      WriteReads(db, a.ops, db2);
    } else {
      InvParts(db);
      HistoryBelow(db);
      HistoryFindAbove(History(db), k, db.lastSequence, db2.lastSequence);
    }
  }

  lemma NextIsWrite(db: Db, a: Action, db2: Db)
    requires a.Write? && Next(db, a, db2)
    ensures NextWrite(db, a.ops, db2)
  {
    hide NextWrite;
  }

  lemma {:induction false} RunUntouched(states: seq<Db>, actions: seq<Action>, m: nat, n: nat, k: UserKey)
    requires IsRun(states, actions) && m <= n < |states| && Untouched(actions, m, n, k)
    ensures Inv(states[m]) && Inv(states[n])
    ensures ValueOf(HistoryFind(History(states[n]), k, states[n].lastSequence)) ==
            ValueOf(HistoryFind(History(states[m]), k, states[m].lastSequence))
    decreases n - m
  {
    hide *;
    if m == n {
      RunKeepsInv(states, actions, m);
    } else {
      RunStep(states, actions, n - 1);
      UntouchedStep(actions, m, n, k);
      RunUntouched(states, actions, m, n - 1, k);
      StepUntouched(states[n - 1], actions[n - 1], states[n], k);
    }
  }

  lemma UntouchedStep(actions: seq<Action>, m: nat, n: nat, k: UserKey)
    requires m < n <= |actions| && Untouched(actions, m, n, k)
    ensures Untouched(actions, m, n - 1, k)
    ensures !actions[n - 1].CrashAndRecover? && (actions[n - 1].Write? ==> !Names(actions[n - 1].ops, k))
  {
  }

  /** The code's read path in state `q`, at the sequence number state `n` had reached, returns what the
      last operation on `k` before `n` wrote. The read is a current one or at a snapshot still live. */
  lemma ReadsLatestWrite(states: seq<Db>, actions: seq<Action>, m: nat, i: nat, n: nat, q: nat, k: UserKey)
    requires IsRun(states, actions) && m < n <= q < |states|
    requires actions[m].Write? && LastOn(actions[m].ops, k, i) && Untouched(actions, m + 1, n, k)
    requires forall j :: n <= j < q ==> !actions[j].CrashAndRecover?
    requires states[n].lastSequence in states[q].snapshots || states[n].lastSequence == states[q].lastSequence
    ensures var op := actions[m].ops[i].1;
            ValueOf(ReadAt(states[q], k, states[n].lastSequence)) == if op.Put? then Some(op.value) else None
  {
    hide *;
    RunKeepsInv(states, actions, m);
    RunStep(states, actions, m);
    NextIsWrite(states[m], actions[m], states[m + 1]);
    WriteReads(states[m], actions[m].ops, states[m + 1]);
    RunUntouched(states, actions, m + 1, n, k);
    SnapshotReadsRepeat(states, actions, n, q, k, states[n].lastSequence);
    RunReadsHistory(states, actions, q, k, states[n].lastSequence);
  }

  /** A key nothing has written so far is not found. */
  lemma NeverWritten(states: seq<Db>, actions: seq<Action>, n: nat, q: nat, k: UserKey)
    requires IsRun(states, actions) && n <= q < |states| && Untouched(actions, 0, n, k)
    requires forall j :: n <= j < q ==> !actions[j].CrashAndRecover?
    requires states[n].lastSequence in states[q].snapshots || states[n].lastSequence == states[q].lastSequence
    ensures ValueOf(ReadAt(states[q], k, states[n].lastSequence)) == None
  {
    RunStarts(states, actions);
    InitInv();
    assert HistoryFind([], k, 0) == None;
    hide *;
    RunUntouched(states, actions, 0, n, k);
    SnapshotReadsRepeat(states, actions, n, q, k, states[n].lastSequence);
    RunReadsHistory(states, actions, q, k, states[n].lastSequence);
  }

  // ---------------------------------------------------------------- across crashes

  /** Some action before `n` wrote exactly this. */
  ghost predicate Wrote(actions: seq<Action>, n: nat, k: UserKey, op: Op) {
    exists m :: 0 <= m < n <= |actions| && actions[m].Write? && (k, op) in actions[m].ops
  }

  lemma {:induction false} HistoryWasWritten(states: seq<Db>, actions: seq<Action>, n: nat)
    requires IsRun(states, actions) && n < |states|
    ensures Inv(states[n]) && forall e :: e in History(states[n]) ==> Wrote(actions, n, e.ik.ukey, e.op)
    decreases n
  {
    hide *;
    if n == 0 {
      InitInv();
      RunStarts(states, actions);
    } else {
      HistoryWasWritten(states, actions, n - 1);
      RunStep(states, actions, n - 1);
      NextKeeps(states[n - 1], actions[n - 1], states[n]);
      InvParts(states[n - 1]);
      InvParts(states[n]);
      forall e | e in History(states[n]) ensures Wrote(actions, n, e.ik.ukey, e.op) {
        EntryFrom(states[n - 1], actions[n - 1], states[n], e);
        WroteStep(actions, n, e);
      }
    }
  }

  lemma EntryFrom(db: Db, a: Action, db2: Db, e: Entry)
    requires LogsOk(db) && LogsOk(db2) && e in History(db2)
    requires a.Write? ==> History(db2) == History(db) + BatchEntries(Batch(db.lastSequence + 1, a.ops))
    requires a.CrashAndRecover? ==> CutOk(db, Cut(a.older, a.newer)) && Survives(db, Cut(a.older, a.newer), db2)
    requires !a.Write? && !a.CrashAndRecover? ==> History(db2) == History(db)
    ensures e in History(db) || (a.Write? && (e.ik.ukey, e.op) in a.ops)
  {
    hide History, LogsOk, CutOk;
  }

  lemma WroteStep(actions: seq<Action>, n: nat, e: Entry)
    requires 0 < n <= |actions|
    requires Wrote(actions, n - 1, e.ik.ukey, e.op) || (actions[n - 1].Write? && (e.ik.ukey, e.op) in actions[n - 1].ops)
    ensures Wrote(actions, n, e.ik.ukey, e.op)
  {
  }

  /** Nothing is made up: whatever a read returns, in any state of any run with any crashes, was
      written under that key by some earlier write. */
  lemma ReadWasWritten(states: seq<Db>, actions: seq<Action>, n: nat, k: UserKey, s: nat)
    requires IsRun(states, actions) && n < |states|
    requires s in states[n].snapshots || s == states[n].lastSequence
    ensures var r := ValueOf(ReadAt(states[n], k, s)); r.Some? ==> Wrote(actions, n, k, Put(r.value))
  {
    hide *;
    HistoryWasWritten(states, actions, n);
    RunReadsHistory(states, actions, n, k, s);
    InvParts(states[n]);
    FoundIsIn(History(states[n]), k, s);
  }

  lemma FoundIsIn(h: seq<Entry>, k: UserKey, s: nat)
    ensures var r := ValueOf(HistoryFind(h, k, s));
            r.Some? ==> exists e :: e in h && e.ik.ukey == k && e.op == Put(r.value)
  {
  }
}
