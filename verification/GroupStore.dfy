/** Group commit drives the store: what has settled in the writer queue is the history of a store that
    took one write step for each group. */
module GroupStore {
  import opened Optional
  import opened Keys
  import opened Batches
  import opened WriteQueue
  import opened GroupCommit
  import opened GroupCommitProof
  import Store
  import Steps
  import Runs
  import GroupCommitRuns

  /** The store has published the same sequence number, and its history is the committed batches of the
      writers that have left the queue, in order of arrival. */
  ghost predicate Coupled(s: System, db: Store.Db) {
    && Store.Inv(db) && db.lastSequence == s.lastSequence && 0 <= Front(s) <= |s.writers|
    && Store.History(db) == Entries(s.writers, Front(s), true)
  }

  // ---------------------------------------------------------------- the group that settles

  /** The members of the group that `id` is about to release. */
  ghost function GroupOps(s: System, id: nat): seq<(UserKey, Op)>
    requires id < |s.writers| && s.writers[id].phase.Settling? && id <= s.writers[id].phase.last < |s.writers|
  {
    AllOps(s.writers, id, s.writers[id].phase.last - id + 1)
  }

  /** What settling adds to the history: the group's batch if it was committed, and else nothing. It
      uses up as many sequence numbers as the group has operations, and none if nobody tried to log it. */
  lemma SettlingGroup(s: System, id: nat)
    requires Inv(s) && Running(s) && id == Front(s) && s.writers[id].phase.Settling?
    ensures id <= s.writers[id].phase.last < |s.writers|
    ensures var p := s.writers[id].phase;
            && (p.status.RoomError? ==> p.count == 0)
            && (!p.status.RoomError? ==> p.count == |GroupOps(s, id)|)
            && Entries(s.writers, p.last + 1, true) == Entries(s.writers, id, true) +
               if p.status.Ok? then BatchEntries(Batch(s.lastSequence + 1, GroupOps(s, id))) else []
  {
    hide *;
    var n := SettlingFacts(s, id);
    if s.writers[id].phase.status.RoomError? {
      RoomFailed(s, id, n);
    } else {
      GroupCount(s, id, n);
      GroupEntered(s, id, n);
    }
    GroupOpsAre(s, id, n);
  }

  lemma GroupOpsAre(s: System, id: nat, n: nat)
    requires id + n <= |s.writers| && n > 0 && s.writers[id].phase.Settling? && s.writers[id].phase.last == id + n - 1
    ensures GroupOps(s, id) == AllOps(s.writers, id, n)
  {
    hide AllOps;
  }

  lemma SettlingFacts(s: System, id: nat) returns (n: nat)
    requires Inv(s) && Running(s) && id == Front(s) && s.writers[id].phase.Settling?
    ensures Settles(s, id, n) && id + n <= |s.writers| && n > 0 && s.writers[id].phase.last == id + n - 1
  {
    hide ControlOk, StatusesOk, LeadersOk, FailureOk, TailOk, ContentOk, Total, AllOps, Consecutive;
    assert id <= s.writers[id].phase.last < |s.writers|;
    n := s.writers[id].phase.last - id + 1;
  }

  ghost predicate Settles(s: System, id: nat, n: nat) {
    && n > 0 && id + n <= |s.writers| && id < |s.writers| && s.writers[id].phase.Settling? && s.writers[id].phase.last == id + n - 1
    && (forall i :: id <= i < id + n ==> s.writers[i].fate == FateOf(s.writers[id].phase.status))
    && (forall i :: id + n <= i < |s.writers| ==> s.writers[i].fate.Queued?)
    && (forall i :: 0 <= i < |s.writers| && Numbered(s.writers[i]) ==> s.writers[i].start == 1 + Total(s.writers, i))
    && Total(s.writers, |s.writers|) == s.lastSequence + s.writers[id].phase.count && Total(s.writers, id) == s.lastSequence
  }

  lemma RoomFailed(s: System, id: nat, n: nat)
    requires Settles(s, id, n) && s.writers[id].phase.status.RoomError?
    ensures s.writers[id].phase.count == 0 && Entries(s.writers, id + n, true) == Entries(s.writers, id, true)
  {
    hide Total, Entries;
    Uncounted(s.writers, id, id + n);
    Uncounted(s.writers, id + n, |s.writers|);
  }

  lemma GroupCount(s: System, id: nat, n: nat)
    requires Settles(s, id, n) && !s.writers[id].phase.status.RoomError?
    ensures id + n <= |s.writers| && s.writers[id].phase.count == |AllOps(s.writers, id, n)|
  {
    hide *;
    SettlesNumbered(s, id, n);
    GroupTotal(s.writers, id, n);
    Uncounted(s.writers, id + n, |s.writers|);
  }

  lemma GroupEntered(s: System, id: nat, n: nat)
    requires Settles(s, id, n) && !s.writers[id].phase.status.RoomError?
    ensures id + n <= |s.writers|
    ensures Entries(s.writers, id + n, true) == Entries(s.writers, id, true) +
            if s.writers[id].phase.status.Ok? then BatchEntries(Batch(s.lastSequence + 1, AllOps(s.writers, id, n))) else []
  {
    hide *;
    SettlesNumbered(s, id, n);
    if s.writers[id].phase.status.Ok? {
      SettlesConsecutive(s, id, n);
      GroupEntries(s.writers, id, n, s.lastSequence + 1, true);
    } else {
      UncountedIn(s.writers, id, id + n, true);
    }
  }

  lemma SettlesNumbered(s: System, id: nat, n: nat)
    requires Settles(s, id, n) && !s.writers[id].phase.status.RoomError?
    ensures id + n <= |s.writers| && id < |s.writers| && s.writers[id].phase.Settling?
    ensures forall i :: id <= i < id + n ==>
              Numbered(s.writers[i]) && (Counts(s.writers[i], true) <==> s.writers[id].phase.status.Ok?)
    ensures forall i :: id + n <= i < |s.writers| ==> !Numbered(s.writers[i])
    ensures Total(s.writers, |s.writers|) == s.lastSequence + s.writers[id].phase.count && Total(s.writers, id) == s.lastSequence
  {
    hide Total;
  }

  lemma SettlesConsecutive(s: System, id: nat, n: nat)
    requires Settles(s, id, n) && s.writers[id].phase.status.Ok?
    ensures Consecutive(s.writers, id, n, s.lastSequence + 1)
  {
    hide Total, AllOps;
    forall i | id <= i < id + n ensures s.writers[i].start == s.lastSequence + 1 + |AllOps(s.writers, id, i - id)| {
      assert Numbered(s.writers[i]);
      assert forall k :: id <= k < i ==> Numbered(s.writers[k]);
      GroupTotal(s.writers, id, i - id);
    }
  }

  // ---------------------------------------------------------------- every step

  /** Steps other than settling publish nothing. */
  lemma NothingSettled(s: System, a: Action, t: System)
    requires ControlOk(s) && GroupOk(s) && Next(s, a, t) && !a.Settle?
    ensures t.lastSequence == s.lastSequence && Front(t) == Front(s) <= |s.writers| <= |t.writers|
    ensures forall i :: 0 <= i < Front(s) ==> Alike(s.writers[i], t.writers[i])
  {
    hide NextEnter, NextWake, NextMakeRoom, NextLogAndApply, GroupOk, ControlOk;
    match a {
      case Enter(batch, sync) => EnterNothing(s, batch, sync, t);
      case Wake(id) => WakeNothing(s, id, t);
      case MakeRoom(id, ok, n) => MakeRoomParts(s, id, ok, n, t);
      case LogAndApply(id, outcome) => LogParts(s, id, outcome, t);
    }
  }

  lemma EnterNothing(s: System, batch: Option<WriteBatch>, sync: bool, t: System)
    requires NextEnter(s, batch, sync, t)
    ensures t.lastSequence == s.lastSequence && Front(t) == Front(s) <= |s.writers| <= |t.writers|
    ensures forall i :: 0 <= i < Front(s) ==> Alike(s.writers[i], t.writers[i])
  {
  }

  lemma WakeNothing(s: System, id: nat, t: System)
    requires NextWake(s, id, t)
    ensures t.lastSequence == s.lastSequence && Front(t) == Front(s) <= |s.writers| <= |t.writers|
    ensures forall i :: 0 <= i < Front(s) ==> Alike(s.writers[i], t.writers[i])
  {
  }

  lemma StillCoupled(s: System, t: System, db: Store.Db)
    requires Coupled(s, db) && t.lastSequence == s.lastSequence && Front(t) == Front(s) <= |s.writers| <= |t.writers|
    requires forall i :: 0 <= i < Front(s) ==> Alike(s.writers[i], t.writers[i])
    ensures Coupled(t, db)
  {
    hide Entries, Store.Inv, Store.History;
    PrefixSame(s.writers, t.writers, Front(s));
  }

  /** What the store does when a group is released. */
  ghost predicate StoreStep(s: System, id: nat, db: Store.Db, db2: Store.Db)
    requires id < |s.writers| && s.writers[id].phase.Settling? && id <= s.writers[id].phase.last < |s.writers|
  {
    match s.writers[id].phase.status
    case Ok => if s.writers[id].batch.Some? then Steps.NextWrite(db, GroupOps(s, id), db2) else db2 == db
    case RoomError => db2 == db
    case _ => Steps.NextUseUp(db, |GroupOps(s, id)|, db2)
  }

  /** The store's step for a group, given what the group adds to the history. */
  lemma StoreFollows(s: System, id: nat, db: Store.Db) returns (db2: Store.Db)
    requires Store.Inv(db) && id < |s.writers| && s.writers[id].phase.Settling? && id <= s.writers[id].phase.last < |s.writers|
    requires db.lastSequence == s.lastSequence
    requires (!s.writers[id].phase.status.RoomError? ==> s.lastSequence + |GroupOps(s, id)| < MAX_SEQUENCE)
    requires s.writers[id].batch.None? ==> GroupOps(s, id) == []
    ensures StoreStep(s, id, db, db2) && Store.Inv(db2)
    ensures var p := s.writers[id].phase;
            && db2.lastSequence == db.lastSequence + (if p.status.RoomError? then 0 else |GroupOps(s, id)|)
            && Store.History(db2) == Store.History(db) +
               if p.status.Ok? then BatchEntries(Batch(s.lastSequence + 1, GroupOps(s, id))) else []
    ensures db2 == db || Runs.Next(db, Steps.Write(GroupOps(s, id)), db2) || Runs.Next(db, Steps.UseUp(|GroupOps(s, id)|), db2)
  {
    hide *;
    var ops, status := GroupOps(s, id), s.writers[id].phase.status;
    NoOps(s.lastSequence + 1);
    if status.Ok? && s.writers[id].batch.Some? {
      Steps.InvParts(db);
      db2 := Runs.WriteEnabled(db, ops);
      Steps.WriteKeeps(db, ops, db2);
    } else if status.Ok? || status.RoomError? {
      db2 := db;
    } else {
      db2 := UseUpEnabled(db, |ops|);
      Steps.UseUpKeeps(db, |ops|, db2);
    }
    StoreStepIntro(s, id, db, db2);
  }

  lemma UseUpEnabled(db: Store.Db, n: nat) returns (db2: Store.Db)
    requires db.lastSequence + n < MAX_SEQUENCE
    ensures Steps.NextUseUp(db, n, db2) && Runs.Next(db, Steps.UseUp(n), db2) && db2.lastSequence == db.lastSequence + n
  {
    db2 := db.(lastSequence := db.lastSequence + n);
  }

  lemma StoreStepIntro(s: System, id: nat, db: Store.Db, db2: Store.Db)
    requires id < |s.writers| && s.writers[id].phase.Settling? && id <= s.writers[id].phase.last < |s.writers|
    requires var status, some := s.writers[id].phase.status, s.writers[id].batch.Some?;
             if status.Ok? && some then Steps.NextWrite(db, GroupOps(s, id), db2)
             else if status.Ok? || status.RoomError? then db2 == db
             else Steps.NextUseUp(db, |GroupOps(s, id)|, db2)
    ensures StoreStep(s, id, db, db2)
  {
    hide GroupOps, Steps.NextWrite, Steps.NextUseUp;
  }

  lemma NoOps(seqno: nat)
    ensures BatchEntries(Batch(seqno, [])) == []
  {
  }

  lemma NullLeader(s: System, id: nat)
    requires GroupOk(s) && Running(s) && id == Front(s) && s.writers[id].phase.Settling? && s.writers[id].batch.None?
    ensures id <= s.writers[id].phase.last < |s.writers| && GroupOps(s, id) == []
  {
    assert s.writers[id].phase.last == id;
    assert AllOps(s.writers, id, 1) == AllOps(s.writers, id, 0) + Ops(s.writers[id]);
  }

  /** Every step of the writer queue is, for the store, nothing at all, or the write of one group's
      operations as a single batch when the group settles, or the loss of a failed group's numbers. */
  lemma StepRefines(s: System, a: Action, t: System, db: Store.Db) returns (db2: Store.Db)
    requires Inv(s) && Next(s, a, t) && Coupled(s, db) && t.lastSequence < MAX_SEQUENCE
    ensures Coupled(t, db2) && (!a.Settle? ==> db2 == db)
    ensures a.Settle? ==> && a.id < |s.writers| && s.writers[a.id].phase.Settling? && a.id <= s.writers[a.id].phase.last < |s.writers|
                          && StoreStep(s, a.id, db, db2)
    ensures db2 == db || (exists ops :: Runs.Next(db, Steps.Write(ops), db2)) || exists n :: Runs.Next(db, Steps.UseUp(n), db2)
  {
    hide *;
    InvParts(s);
    if !a.Settle? {
      NothingSettled(s, a, t);
      StillCoupled(s, t, db);
      db2 := db;
    } else {
      db2 := SettleRefines(s, a.id, t, db);
    }
  }

  lemma SettleRefines(s: System, id: nat, t: System, db: Store.Db) returns (db2: Store.Db)
    requires Inv(s) && Next(s, Settle(id), t) && Coupled(s, db) && t.lastSequence < MAX_SEQUENCE
    ensures id < |s.writers| && s.writers[id].phase.Settling? && id <= s.writers[id].phase.last < |s.writers|
    ensures Coupled(t, db2) && StoreStep(s, id, db, db2)
    ensures db2 == db || (exists ops :: Runs.Next(db, Steps.Write(ops), db2)) || exists n :: Runs.Next(db, Steps.UseUp(n), db2)
  {
    hide *;
    InvParts(s);
    CoupledParts(s, db);
    SettleFront(s, id, t);
    SettlingGroup(s, id);
    if s.writers[id].batch.None? { NullLeader(s, id); }
    db2 := StoreFollows(s, id, db);
    CoupledIntro(s, id, t, db2);
  }

  lemma CoupledParts(s: System, db: Store.Db)
    requires Coupled(s, db)
    ensures Store.Inv(db) && db.lastSequence == s.lastSequence && 0 <= Front(s) <= |s.writers|
    ensures Store.LogsOk(db) && Store.History(db) == Entries(s.writers, Front(s), true)
  {
    hide Entries;
  }

  lemma SettleFront(s: System, id: nat, t: System)
    requires ControlOk(s) && GroupOk(s) && Next(s, Settle(id), t)
    ensures Running(s) && id == Front(s) && id < |s.writers| == |t.writers| && s.writers[id].phase.Settling?
    ensures var p := s.writers[id].phase;
            && id <= p.last < |s.writers| && Front(t) == p.last + 1 && t.lastSequence == s.lastSequence + p.count
            && forall i :: 0 <= i < |s.writers| ==> Alike(s.writers[i], t.writers[i])
  {
    assert s.writers[id].phase.Settling?;
    hide GroupOk, ControlOk, NextSettle;
    SettleParts(s, id, t);
  }

  lemma CoupledIntro(s: System, id: nat, t: System, db2: Store.Db)
    requires id < |s.writers| == |t.writers| && s.writers[id].phase.Settling? && id <= s.writers[id].phase.last < |s.writers|
    requires Front(t) == s.writers[id].phase.last + 1 && forall i :: 0 <= i < |s.writers| ==> Alike(s.writers[i], t.writers[i])
    requires Store.Inv(db2) && Store.History(db2) == Entries(s.writers, s.writers[id].phase.last + 1, true)
    requires db2.lastSequence == t.lastSequence
    ensures Coupled(t, db2)
  {
    hide Entries, Store.Inv, Store.History;
    PrefixSame(s.writers, t.writers, s.writers[id].phase.last + 1);
  }

  // ---------------------------------------------------------------- whole runs

  /** Flushes, compactions, moves and snapshots may happen at any time in between. */
  lemma BackgroundStays(s: System, db: Store.Db, a: Steps.Action, db2: Store.Db)
    requires Coupled(s, db) && Runs.Next(db, a, db2) && Runs.Safe(db, a)
    requires !a.Write? && !a.UseUp? && !a.CrashAndRecover?
    ensures Coupled(s, db2)
  {
    hide Entries, Store.Inv, Store.History, Runs.Safe;
    Runs.NextKeeps(db, a, db2);
    SameSequence(db, a, db2);
  }

  lemma SameSequence(db: Store.Db, a: Steps.Action, db2: Store.Db)
    requires Runs.Next(db, a, db2) && !a.Write? && !a.UseUp? && !a.CrashAndRecover?
    ensures db2.lastSequence == db.lastSequence
  {
  }

  lemma SequenceGrows(s: System, a: Action, t: System)
    requires Next(s, a, t)
    ensures s.lastSequence <= t.lastSequence
  {
    hide AllOps, IsGroup, Starts, InQueue, BatchEntries;
  }

  lemma ReachEither(db: Store.Db, db2: Store.Db)
    requires Runs.Reachable(db)
    requires db2 == db || (exists ops :: Runs.Next(db, Steps.Write(ops), db2)) || exists n :: Runs.Next(db, Steps.UseUp(n), db2)
    ensures Runs.Reachable(db2)
  {
    hide Runs.Reachable, Runs.Next;
    if db2 != db {
      if ops :| Runs.Next(db, Steps.Write(ops), db2) {
        Runs.Reach(db, Steps.Write(ops), db2);
      } else {
        var n :| Runs.Next(db, Steps.UseUp(n), db2);
        Runs.Reach(db, Steps.UseUp(n), db2);
      }
    }
  }

  /** Every run of concurrent writers is a run of the store: there is a reachable store whose history is
      exactly what the settled writers committed, in order of arrival. */
  lemma {:induction false} RunDrivesStore(states: seq<System>, actions: seq<Action>, k: nat) returns (db: Store.Db)
    requires GroupCommitRuns.IsRun(states, actions) && k < |states| && states[k].lastSequence < MAX_SEQUENCE
    ensures Runs.Reachable(db) && Coupled(states[k], db)
  {
    hide *;
    if k == 0 {
      db := Runs.INIT;
      Runs.ReachInit();
      StartCoupled(states, actions);
    } else {
      StepOf(states, actions, k - 1);
      SequenceGrows(states[k - 1], actions[k - 1], states[k]);
      var was := RunDrivesStore(states, actions, k - 1);
      GroupCommitRuns.RunInv(states, actions, k - 1);
      db := StepRefines(states[k - 1], actions[k - 1], states[k], was);
      ReachEither(was, db);
    }
  }

  lemma StepOf(states: seq<System>, actions: seq<Action>, k: nat)
    requires GroupCommitRuns.IsRun(states, actions) && k + 1 < |states|
    ensures k < |actions| && Next(states[k], actions[k], states[k + 1])
  {
    hide Next;
  }

  lemma StartCoupled(states: seq<System>, actions: seq<Action>)
    requires GroupCommitRuns.IsRun(states, actions)
    ensures Coupled(states[0], Runs.INIT)
  {
    Runs.InitInv();
    hide Store.Inv, Store.History, Next;
  }
}
