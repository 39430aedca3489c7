/** What a writer may rely on once its write has returned: its operations are in the log and the
    memtable, and those of a sync write are in the part of the log that is on disk. */
module GroupDurability {
  import opened Optional
  import opened Keys
  import opened Batches
  import opened WriteQueue
  import opened GroupCommit
  import opened GroupCommitProof
  import opened GroupCommitRuns

  /** The operations stand among the entries, numbered from `start` on. */
  ghost predicate Holds(es: seq<Entry>, ops: seq<(UserKey, Op)>, start: nat) {
    forall j :: 0 <= j < |ops| ==> Entry(IKey(ops[j].0, start + j), ops[j].1) in es
  }

  lemma BatchHolds(start: nat, ops: seq<(UserKey, Op)>)
    ensures Holds(BatchEntries(Batch(start, ops)), ops, start)
  {
    var es := BatchEntries(Batch(start, ops));
    forall j | 0 <= j < |ops| ensures Entry(IKey(ops[j].0, start + j), ops[j].1) in es {
      assert es[j] == Entry(IKey(ops[j].0, start + j), ops[j].1);
    }
  }

  lemma HoldsMore(a: seq<Entry>, b: seq<Entry>, ops: seq<(UserKey, Op)>, start: nat)
    requires Holds(a, ops, start) || Holds(b, ops, start)
    ensures Holds(a + b, ops, start)
  {
  }

  lemma {:induction false} EntriesHold(ws: seq<Writer>, n: nat, i: nat, memtable: bool)
    requires i < n <= |ws| && Counts(ws[i], memtable)
    ensures Holds(Entries(ws, n, memtable), Ops(ws[i]), ws[i].start)
  {
    hide Holds, BatchEntries, Ops;
    var w := ws[n - 1];
    var es := if Counts(w, memtable) then BatchEntries(Batch(w.start, Ops(w))) else [];
    if i == n - 1 {
      BatchHolds(w.start, Ops(w));
    } else {
      EntriesHold(ws, n - 1, i, memtable);
    }
    HoldsMore(Entries(ws, n - 1, memtable), es, Ops(ws[i]), ws[i].start);
  }

  /** Whoever returned success has each of its operations in the memtable and in the log, under its own
      sequence number, which is published. */
  lemma SuccessIsVisible(states: seq<System>, actions: seq<Action>, k: nat, i: nat)
    requires IsRun(states, actions) && k < |states| && i < |states[k].writers|
    requires states[k].writers[i].phase == Returned(Ok) && states[k].writers[i].batch.Some?
    ensures var s := states[k];
            var ops, start := s.writers[i].batch.value.ops, s.writers[i].start;
            && (forall j :: 0 <= j < |ops| ==> Entry(IKey(ops[j].0, start + j), ops[j].1) in s.applied)
            && (forall j :: 0 <= j < |ops| ==> Entry(IKey(ops[j].0, start + j), ops[j].1) in LogEntries(s.log))
            && start + |ops| <= s.lastSequence + 1
  {
    hide *;
    var s := states[k];
    RunInv(states, actions, k);
    InvParts(s);
    ReturnedFate(s, i);
    CommittedCounts(s.writers[i]);
    AtomicVisibility(states, actions, k, i);
    ContentParts(s);
    EntriesHold(s.writers, |s.writers|, i, true);
    EntriesHold(s.writers, |s.writers|, i, false);
    HoldsIs(s.applied, s.writers[i]);
    HoldsIs(LogEntries(s.log), s.writers[i]);
  }

  lemma CommittedCounts(w: Writer)
    requires w.fate.Committed?
    ensures Counts(w, true) && Counts(w, false) && Numbered(w)
    ensures w.batch.Some? ==> Ops(w) == w.batch.value.ops
  {
  }

  lemma HoldsIs(es: seq<Entry>, w: Writer)
    requires w.batch.Some? && Holds(es, Ops(w), w.start)
    ensures var ops := w.batch.value.ops; forall j :: 0 <= j < |ops| ==> Entry(IKey(ops[j].0, w.start + j), ops[j].1) in es
  {
  }

  lemma ReturnedFate(s: System, i: nat)
    requires ControlOk(s) && StatusesOk(s) && i < |s.writers| && s.writers[i].phase == Returned(Ok)
    ensures s.writers[i].fate.Committed?
  {
  }

  // ---------------------------------------------------------------- sync

  ghost predicate SyncedOk(s: System) {
    && s.synced <= |s.log|
    && forall i :: 0 <= i < |s.writers| && s.writers[i].fate.Committed? && s.writers[i].sync ==>
         Holds(LogEntries(s.log[..s.synced]), Ops(s.writers[i]), s.writers[i].start)
  }

  /** A writer whose fate is decided in this step has no operations, or is in the group logged. */
  lemma CommitStep(s: System, a: Action, t: System, i: nat)
    requires Inv(s) && Next(s, a, t) && i < |t.writers| && t.writers[i].fate.Committed?
    ensures || (i < |s.writers| && Alike(s.writers[i], t.writers[i]))
            || Ops(t.writers[i]) == []
            || (a.LogAndApply? && a.outcome.Ok? && a.id < |s.writers| && (t.writers[i].sync ==> s.writers[a.id].sync))
  {
    hide *;
    InvParts(s);
    match a {
      case Enter(batch, sync) => EnterCommits(s, batch, sync, t, i);
      case Wake(id) => WakeCommits(s, id, t, i);
      case MakeRoom(id, ok, n) => RoomCommits(s, id, ok, n, t, i);
      case LogAndApply(id, outcome) => LogCommits(s, id, outcome, t, i);
      case Settle(id) => SettleCommits(s, id, t, i);
    }
  }

  lemma EnterCommits(s: System, batch: Option<WriteBatch>, sync: bool, t: System, i: nat)
    requires Next(s, Enter(batch, sync), t) && i < |t.writers| && t.writers[i].fate.Committed?
    ensures i < |s.writers| && Alike(s.writers[i], t.writers[i])
  {
  }

  lemma WakeCommits(s: System, id: nat, t: System, i: nat)
    requires Next(s, Wake(id), t) && i < |t.writers|
    ensures i < |s.writers| && Alike(s.writers[i], t.writers[i])
  {
  }

  lemma RoomCommits(s: System, id: nat, ok: bool, n: nat, t: System, i: nat)
    requires ControlOk(s) && DecidedOk(s) && Next(s, MakeRoom(id, ok, n), t) && i < |t.writers| && t.writers[i].fate.Committed?
    ensures i < |s.writers|
    ensures Alike(s.writers[i], t.writers[i]) || Ops(t.writers[i]) == []
  {
    MakeRoomParts(s, id, ok, n, t);
    assert s.writers[id].phase.Leading?;
    hide NextMakeRoom;
  }

  lemma LogCommits(s: System, id: nat, outcome: Status, t: System, i: nat)
    requires ControlOk(s) && GroupOk(s) && Next(s, LogAndApply(id, outcome), t) && i < |t.writers| && t.writers[i].fate.Committed?
    ensures i < |s.writers| && id < |s.writers|
    ensures Alike(s.writers[i], t.writers[i]) || (outcome.Ok? && (t.writers[i].sync ==> s.writers[id].sync))
  {
    hide AllOps, BatchEntries, Consecutive;
    LogParts(s, id, outcome, t);
  }

  lemma SettleCommits(s: System, id: nat, t: System, i: nat)
    requires Next(s, Settle(id), t) && i < |t.writers|
    ensures i < |s.writers| && Alike(s.writers[i], t.writers[i])
  {
  }

  /** What a step does to the log and to the part of it that is on disk. */
  lemma SyncStep(s: System, a: Action, t: System)
    requires Next(s, a, t) && s.synced <= |s.log|
    ensures s.log <= t.log && t.synced <= |t.log|
    ensures t.synced == s.synced || (a.LogAndApply? && t.synced == |t.log|)
    ensures a.LogAndApply? && a.outcome.Ok? && a.id < |s.writers| && s.writers[a.id].sync ==> t.synced == |t.log|
  {
    hide BatchEntries;
  }

  lemma SyncedKeeps(s: System, a: Action, t: System)
    requires Inv(s) && SyncedOk(s) && Next(s, a, t)
    ensures SyncedOk(t)
  {
    hide *;
    NextInv(s, a, t);
    SyncedSize(s);
    SyncStep(s, a, t);
    forall i: nat | i < |t.writers| && t.writers[i].fate.Committed? && t.writers[i].sync
      ensures Holds(LogEntries(t.log[..t.synced]), Ops(t.writers[i]), t.writers[i].start)
    {
      if t.synced == |t.log| {
        assert t.log[..t.synced] == t.log;
        InTheLog(t, i);
      } else {
        assert t.log[..t.synced] == s.log[..s.synced];
        CommitStep(s, a, t, i);
        StaysSynced(s, t, i);
      }
    }
    SyncedIntro(t);
  }

  lemma SyncedSize(s: System)
    requires SyncedOk(s)
    ensures s.synced <= |s.log|
  {
  }

  lemma SyncedIntro(s: System)
    requires s.synced <= |s.log|
    requires forall i: nat :: i < |s.writers| && s.writers[i].fate.Committed? && s.writers[i].sync ==>
               Holds(LogEntries(s.log[..s.synced]), Ops(s.writers[i]), s.writers[i].start)
    ensures SyncedOk(s)
  {
    hide Holds, LogEntries, Ops;
  }

  lemma StaysSynced(s: System, t: System, i: nat)
    requires SyncedOk(s) && i < |t.writers| && t.writers[i].fate.Committed? && t.writers[i].sync
    requires || (i < |s.writers| && Alike(s.writers[i], t.writers[i])) || Ops(t.writers[i]) == []
    ensures Holds(LogEntries(s.log[..s.synced]), Ops(t.writers[i]), t.writers[i].start)
  {
    hide LogEntries;
    if Ops(t.writers[i]) == [] { NothingToHold(LogEntries(s.log[..s.synced]), t.writers[i].start); }
  }

  lemma NothingToHold(es: seq<Entry>, start: nat)
    ensures Holds(es, [], start)
  {
  }

  lemma InTheLog(s: System, i: nat)
    requires Inv(s) && i < |s.writers| && s.writers[i].fate.Committed?
    ensures Holds(LogEntries(s.log), Ops(s.writers[i]), s.writers[i].start)
  {
    assert Counts(s.writers[i], false);
    hide *;
    InvParts(s);
    ContentParts(s);
    EntriesHold(s.writers, |s.writers|, i, false);
  }

  lemma {:induction false} RunSynced(states: seq<System>, actions: seq<Action>, k: nat)
    requires IsRun(states, actions) && k < |states|
    ensures SyncedOk(states[k])
    decreases k
  {
    hide Next, SyncedOk, Inv;
    if k == 0 {
      InitSynced();
    } else {
      RunSynced(states, actions, k - 1);
      RunInv(states, actions, k - 1);
      SyncedKeeps(states[k - 1], actions[k - 1], states[k]);
    }
  }

  lemma InitSynced()
    ensures SyncedOk(INIT)
  {
  }

  lemma {:induction false} LogPrefix(log: seq<Batch>, m: nat, n: nat, ops: seq<(UserKey, Op)>, start: nat)
    requires m <= n <= |log| && Holds(LogEntries(log[..m]), ops, start)
    ensures Holds(LogEntries(log[..n]), ops, start)
    decreases n - m
  {
    if m < n {
      LogPrefix(log, m, n - 1, ops, start);
      assert log[..n] == log[..n - 1] + [log[n - 1]];
      LogAppend(log[..n - 1], log[n - 1]);
      hide Holds, LogEntries;
      HoldsMore(LogEntries(log[..n - 1]), BatchEntries(log[n - 1]), ops, start);
    }
  }

  /** A sync write that returned success is in every prefix of the log that a crash can leave, as long
      as the disk keeps what was synced. */
  lemma SyncedWritesSurvive(states: seq<System>, actions: seq<Action>, k: nat, i: nat, cut: nat)
    requires IsRun(states, actions) && k < |states| && i < |states[k].writers|
    requires var w := states[k].writers[i]; w.phase == Returned(Ok) && w.sync && w.batch.Some?
    requires states[k].synced <= cut <= |states[k].log|
    ensures var s := states[k];
            var ops, start := s.writers[i].batch.value.ops, s.writers[i].start;
            forall j :: 0 <= j < |ops| ==> Entry(IKey(ops[j].0, start + j), ops[j].1) in LogEntries(s.log[..cut])
  {
    hide *;
    var s := states[k];
    RunInv(states, actions, k);
    InvParts(s);
    ReturnedFate(s, i);
    RunSynced(states, actions, k);
    SyncedHolds(s, i);
    LogPrefix(s.log, s.synced, cut, Ops(s.writers[i]), s.writers[i].start);
    HoldsIs(LogEntries(s.log[..cut]), s.writers[i]);
  }

  lemma SyncedHolds(s: System, i: nat)
    requires SyncedOk(s) && i < |s.writers| && s.writers[i].fate.Committed? && s.writers[i].sync
    ensures s.synced <= |s.log| && Holds(LogEntries(s.log[..s.synced]), Ops(s.writers[i]), s.writers[i].start)
  {
    hide Holds, LogEntries, Ops;
  }

  /** Nothing else brings a record to disk: unless a sync leader committed, `synced` stays. */
  lemma OnlySyncLeadersSync(states: seq<System>, actions: seq<Action>, k: nat)
    requires IsRun(states, actions) && k < |actions| && states[k + 1].synced != states[k].synced
    ensures actions[k].LogAndApply? && actions[k].outcome.Ok? && actions[k].id < |states[k].writers|
    ensures states[k].writers[actions[k].id].sync && states[k + 1].synced == |states[k + 1].log|
  {
    hide BatchEntries;
  }
}
