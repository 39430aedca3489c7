/** Whole runs of concurrent writers. */
module GroupCommitRuns {
  import opened Optional
  import opened Batches
  import opened WriteQueue
  import opened GroupCommit
  import opened GroupCommitProof

  ghost predicate IsRun(states: seq<System>, actions: seq<Action>) {
    && |states| == |actions| + 1 && states[0] == INIT
    && forall k :: 0 <= k < |actions| ==> Next(states[k], actions[k], states[k + 1])
  }

  lemma InitInv()
    ensures Inv(INIT)
  {
  }

  lemma {:induction false} RunInv(states: seq<System>, actions: seq<Action>, k: nat)
    requires IsRun(states, actions) && k < |states|
    ensures Inv(states[k])
  {
    hide Inv, Next;
    if k == 0 {
      InitInv();
    } else {
      RunInv(states, actions, k - 1);
      NextInv(states[k - 1], actions[k - 1], states[k]);
    }
  }

  // ---------------------------------------------------------------- exactly once, in order

  /** In every state of every run the log and the memtable hold, in order of arrival, each committed
      batch once and nothing that failed; whoever returned knows which of the two happened. */
  lemma ExactlyOnceInOrder(states: seq<System>, actions: seq<Action>, k: nat)
    requires IsRun(states, actions) && k < |states|
    ensures var s := states[k];
            && s.applied == Entries(s.writers, |s.writers|, true)
            && LogEntries(s.log) == Entries(s.writers, |s.writers|, false)
            && forall i :: 0 <= i < |s.writers| && s.writers[i].phase.Returned? ==> s.writers[i].fate == FateOf(s.writers[i].phase.status)
  {
    RunInv(states, actions, k);
    hide GroupOk, FailureOk, TailOk, NumbersOk, LogEntries, Entries;
  }

  lemma {:induction false} LogAhead(ws: seq<Writer>, n: nat)
    requires n <= |ws| && forall i, j :: 0 <= i < j < |ws| && ws[i].fate.LoggedOnly? ==> !ws[j].fate.Committed?
    ensures Entries(ws, n, true) <= Entries(ws, n, false)
    ensures (forall i :: 0 <= i < n ==> !ws[i].fate.LoggedOnly?) ==> Entries(ws, n, true) == Entries(ws, n, false)
  {
    if n > 0 {
      LogAhead(ws, n - 1);
      assert ws[n - 1].fate.Committed? ==> forall i :: 0 <= i < n ==> !ws[i].fate.LoggedOnly?;
    }
  }

  /** The log never lacks what the memtable has. It holds more, at its end, only after a failed sync. */
  lemma LogHoldsMemtable(states: seq<System>, actions: seq<Action>, k: nat)
    requires IsRun(states, actions) && k < |states|
    ensures var s := states[k];
            && s.applied <= LogEntries(s.log)
            && (s.applied == LogEntries(s.log) || exists i :: 0 <= i < |s.writers| && s.writers[i].fate.LoggedOnly?)
  {
    RunInv(states, actions, k);
    var s := states[k];
    assert LogEntries(s.log) == Entries(s.writers, |s.writers|, false) && s.applied == Entries(s.writers, |s.writers|, true);
    hide ControlOk, DecidedOk, StatusesOk, LeadersOk, GroupOk, FailureOk, ContentOk, NumbersOk, Entries, LogEntries;
    LogAhead(s.writers, |s.writers|);
  }

  lemma {:induction false} TotalGrows(ws: seq<Writer>, m: nat, n: nat)
    requires m <= n <= |ws|
    ensures Total(ws, m) <= Total(ws, n)
  {
    if m < n { TotalGrows(ws, m, n - 1); }
  }

  /** Sequence ranges follow the order of arrival: they never overlap, and there is no gap between two
      batches unless another batch took those numbers. */
  lemma RangesContiguous(states: seq<System>, actions: seq<Action>, k: nat, i: nat, j: nat)
    requires IsRun(states, actions) && k < |states|
    requires i < j < |states[k].writers| && Numbered(states[k].writers[i]) && Numbered(states[k].writers[j])
    ensures var ws := states[k].writers;
            && ws[i].start + |Ops(ws[i])| <= ws[j].start
            && ((forall m :: i < m < j ==> !Numbered(ws[m])) ==> ws[i].start + |Ops(ws[i])| == ws[j].start)
  {
    hide *;
    RunInv(states, actions, k);
    InvParts(states[k]);
    var ws := states[k].writers;
    StartOf(states[k], i);
    StartOf(states[k], j);
    TotalGrows(ws, i + 1, j);
    if forall m :: i < m < j ==> !Numbered(ws[m]) { Uncounted(ws, i + 1, j); }
  }

  lemma StartOf(s: System, i: nat)
    requires NumbersOk(s) && i < |s.writers| && Numbered(s.writers[i])
    ensures s.writers[i].start == 1 + Total(s.writers, i) && Total(s.writers, i + 1) == Total(s.writers, i) + |Ops(s.writers[i])|
  {
  }

  /** A batch is visible at the published sequence number as a whole or not at all. */
  lemma AtomicVisibility(states: seq<System>, actions: seq<Action>, k: nat, i: nat)
    requires IsRun(states, actions) && k < |states| && i < |states[k].writers| && Numbered(states[k].writers[i])
    ensures var w := states[k].writers[i];
            if w.phase.Returned? || w.done.Some? then w.start + |Ops(w)| <= states[k].lastSequence + 1
            else w.start > states[k].lastSequence
  {
    RunInv(states, actions, k);
    Visible(states[k], i);
  }

  lemma Visible(s: System, i: nat)
    requires Inv(s) && i < |s.writers| && Numbered(s.writers[i])
    ensures var w := s.writers[i];
            if w.phase.Returned? || w.done.Some? then w.start + |Ops(w)| <= s.lastSequence + 1 else w.start > s.lastSequence
  {
    hide GroupOk, FailureOk, TailOk, ContentOk, LeadersOk, StatusesOk;
    var ws := s.writers;
    assert ws[i].start == 1 + Total(ws, i) && Total(ws, i + 1) == Total(ws, i) + |Ops(ws[i])|;
    hide Total;
    if i < Front(s) {
      TotalGrows(ws, i + 1, Front(s));
      TotalGrows(ws, Front(s), |ws|);
    } else {
      TotalGrows(ws, Front(s), i);
    }
  }

  /** A sync write is only ever logged by a sync leader, at or before it in the queue. */
  lemma SyncBySyncLeader(states: seq<System>, actions: seq<Action>, k: nat, i: nat)
    requires IsRun(states, actions) && k < |states| && i < |states[k].writers| && Numbered(states[k].writers[i])
    ensures var ws := states[k].writers; ws[i].leader <= i && (ws[i].sync ==> ws[ws[i].leader].sync)
  {
    RunInv(states, actions, k);
    hide ControlOk, GroupOk, FailureOk, TailOk, ContentOk, NumbersOk;
  }

  /** After a failed sync has been recorded nothing is logged or applied any more. */
  lemma NothingAfterFailure(s: System, a: Action, t: System)
    requires Inv(s) && Next(s, a, t) && s.failed
    ensures t.log == s.log && t.applied == s.applied && t.lastSequence >= s.lastSequence && t.failed
  {
    hide DecidedOk, StatusesOk, LeadersOk, FailureOk, TailOk, ContentOk, NumbersOk, AllOps, BatchEntries, IsGroup;
    if a.LogAndApply? {
      LogParts(s, a.id, a.outcome, t);
    }
  }

  // ---------------------------------------------------------------- wakeups and progress

  /** A non-empty queue has a head that is running or has been signalled, and a writer that has been
      told its result has been signalled too. */
  lemma HeadRunsOrIsSignalled(states: seq<System>, actions: seq<Action>, k: nat)
    requires IsRun(states, actions) && k < |states|
    ensures var s := states[k];
            && (s.queue != [] ==> s.queue[0] < |s.writers| && s.writers[s.queue[0]].done.None? &&
                                  var p := s.writers[s.queue[0]].phase; p == Waiting(true) || p.Leading? || p.Logging? || p.Settling?)
            && forall i :: 0 <= i < |s.writers| && s.writers[i].done.Some? ==>
                 s.writers[i].phase == Waiting(true) || s.writers[i].phase.Returned?
  {
    RunInv(states, actions, k);
    hide DecidedOk, StatusesOk, LeadersOk, GroupOk, FailureOk, TailOk, ContentOk, NumbersOk;
  }

  /** The steps writers take on their own: anything but arriving and waking up for nothing. */
  ghost predicate Internal(s: System, a: Action) {
    match a
    case Enter(_, _) => false
    case Wake(id) => id < |s.writers| && (s.writers[id].done.Some? || (s.queue != [] && s.queue[0] == id))
    case _ => true
  }

  function Weight(w: Writer): nat {
    match w.phase
    case Returned(_) => 0
    case Waiting(_) => if w.done.Some? then 1 else 5
    case Settling(_, _, _) => 2
    case Logging(_, _) => 3
    case Leading => 4
  }

  function Measure(ws: seq<Writer>): nat {
    if ws == [] then 0 else Measure(ws[..|ws| - 1]) + Weight(ws[|ws| - 1])
  }

  lemma {:induction false} MeasureDrops(ws: seq<Writer>, xs: seq<Writer>, i: nat)
    requires |ws| == |xs| && i < |ws| && Weight(xs[i]) < Weight(ws[i])
    requires forall k :: 0 <= k < |ws| ==> Weight(xs[k]) <= Weight(ws[k])
    ensures Measure(xs) < Measure(ws)
  {
    var l := |ws| - 1;
    if i < l { MeasureDrops(ws[..l], xs[..l], i); } else { MeasureNot(ws[..l], xs[..l]); }
  }

  lemma {:induction false} MeasureNot(ws: seq<Writer>, xs: seq<Writer>)
    requires |ws| == |xs| && forall k :: 0 <= k < |ws| ==> Weight(xs[k]) <= Weight(ws[k])
    ensures Measure(xs) <= Measure(ws)
  {
    if ws != [] { MeasureNot(ws[..|ws| - 1], xs[..|xs| - 1]); }
  }

  lemma InternalDecreases(s: System, a: Action, t: System)
    requires Inv(s) && Next(s, a, t) && Internal(s, a)
    ensures Measure(t.writers) < Measure(s.writers)
  {
    hide *;
    InvParts(s);
    StepWeights(s, a, t);
    MeasureDrops(s.writers, t.writers, a.id);
  }

  lemma StepWeights(s: System, a: Action, t: System)
    requires ControlOk(s) && GroupOk(s) && Next(s, a, t) && Internal(s, a)
    ensures !a.Enter? && a.id < |s.writers| == |t.writers| && Weight(t.writers[a.id]) < Weight(s.writers[a.id])
    ensures forall k :: 0 <= k < |s.writers| ==> Weight(t.writers[k]) <= Weight(s.writers[k])
  {
    hide ControlOk, GroupOk, NextEnter, NextWake, NextMakeRoom, NextLogAndApply, NextSettle, Weight;
    match a {
      case MakeRoom(id, ok, n) => RoomWeights(s, id, ok, n, t);
      case LogAndApply(id, outcome) => LogWeights(s, id, outcome, t);
      case Settle(id) => SettleWeights(s, id, t);
      case Wake(id) => WakeWeights(s, id, t);
    }
  }

  lemma RoomWeights(s: System, id: nat, ok: bool, n: nat, t: System)
    requires ControlOk(s) && NextMakeRoom(s, id, ok, n, t)
    ensures id < |s.writers| == |t.writers| && Weight(t.writers[id]) < Weight(s.writers[id])
    ensures forall k :: 0 <= k < |s.writers| ==> Weight(t.writers[k]) <= Weight(s.writers[k])
  {
    assert s.writers[id].phase.Leading?;
    MakeRoomParts(s, id, ok, n, t);
    hide NextMakeRoom, ControlOk;
  }

  lemma LogWeights(s: System, id: nat, outcome: Status, t: System)
    requires ControlOk(s) && GroupOk(s) && NextLogAndApply(s, id, outcome, t)
    ensures id < |s.writers| == |t.writers| && Weight(t.writers[id]) < Weight(s.writers[id])
    ensures forall k :: 0 <= k < |s.writers| ==> Weight(t.writers[k]) <= Weight(s.writers[k])
  {
    hide *;
    LogParts(s, id, outcome, t);
    SameButLeader(s.writers, t.writers, id);
  }

  lemma SameButLeader(ws: seq<Writer>, xs: seq<Writer>, id: nat)
    requires id < |ws| == |xs| && ws[id].phase.Logging? && xs[id].phase.Settling?
    requires forall i :: 0 <= i < |ws| && i != id ==> xs[i].phase == ws[i].phase && xs[i].done == ws[i].done
    ensures Weight(xs[id]) < Weight(ws[id]) && forall k :: 0 <= k < |ws| ==> Weight(xs[k]) <= Weight(ws[k])
  {
  }

  lemma SettleWeights(s: System, id: nat, t: System)
    requires ControlOk(s) && GroupOk(s) && NextSettle(s, id, t)
    ensures id < |s.writers| == |t.writers| && Weight(t.writers[id]) < Weight(s.writers[id])
    ensures forall k :: 0 <= k < |s.writers| ==> Weight(t.writers[k]) <= Weight(s.writers[k])
  {
    hide AllOps, Consecutive;
    SettleParts(s, id, t);
  }

  lemma WakeWeights(s: System, id: nat, t: System)
    requires ControlOk(s) && NextWake(s, id, t) && Internal(s, Wake(id))
    ensures id < |s.writers| == |t.writers| && Weight(t.writers[id]) < Weight(s.writers[id])
    ensures forall k :: 0 <= k < |s.writers| ==> Weight(t.writers[k]) <= Weight(s.writers[k])
  {
  }

  /** No writer can take a step on its own. */
  ghost predicate Stuck(s: System) {
    forall a, t :: Internal(s, a) ==> !Next(s, a, t)
  }

  lemma {:induction false} GroupExists(ws: seq<Writer>, from: nat) returns (n: nat)
    requires 0 < from <= |ws| && AllJoin(ws, from)
    ensures IsGroup(ws, n)
    decreases |ws| - from
  {
    n := from;
    if from < |ws| && Joins(ws, from) { n := GroupExists(ws, from + 1); }
  }

  /** Unless the database has failed, a leader that finds room can go on. */
  lemma CanMakeRoom(s: System, id: nat) returns (a: Action, t: System)
    requires ControlOk(s) && Running(s) && id == Front(s) && s.writers[id].phase.Leading?
    ensures Internal(s, a) && Next(s, a, t) && a.MakeRoom? && (a.ok <==> !s.failed)
  {
    var ws, w := s.writers, s.writers[id];
    if s.failed || w.batch.None? {
      a := MakeRoom(id, !s.failed, 0);
      t := s.(writers := ws[id := w.(phase := Settling(id, 0, if s.failed then RoomError else Ok),
                                     fate := if s.failed then Skipped else Committed, start := s.lastSequence + 1, leader := id)]);
    } else {
      QueueIs(s);
      var n := GroupExists(InQueue(s), 1);
      a := MakeRoom(id, true, n);
      t := FormGroup(s, id, n);
    }
  }

  lemma FormGroup(s: System, id: nat, n: nat) returns (t: System)
    requires ControlOk(s) && Running(s) && id == Front(s) && s.writers[id].phase.Leading? && s.writers[id].batch.Some?
    requires !s.failed && IsGroup(InQueue(s), n)
    ensures NextMakeRoom(s, id, true, n, t)
  {
    hide IsGroup, AllOps, Started;
    GroupFits(s, n);
    var seqno := s.lastSequence + 1;
    var phase := Logging(id + n - 1, Batch(seqno, AllOps(s.writers, id, n)));
    StartedIs(s.writers, id, n, seqno, phase);
    t := s.(writers := Started(s.writers, id, n, seqno, phase));
  }

  lemma GroupFits(s: System, n: nat)
    requires QueueOk(s) && IsGroup(InQueue(s), n)
    ensures 0 < n && Front(s) + n <= |s.writers|
  {
  }

  lemma LoggingFits(s: System, id: nat)
    requires GroupOk(s) && Running(s) && id == Front(s) && s.writers[id].phase.Logging?
    ensures id < |s.writers| && id <= s.writers[id].phase.last < |s.writers|
  {
    hide AllOps, Consecutive;
  }

  lemma CanLog(s: System, id: nat) returns (t: System)
    requires GroupOk(s) && Running(s) && id == Front(s) && s.writers[id].phase.Logging?
    ensures Next(s, LogAndApply(id, Ok), t)
  {
    hide *;
    LoggingFits(s, id);
    t := LogGroupOk(s, id, s.writers[id].phase.last, s.writers[id].phase.record);
  }

  lemma LogGroupOk(s: System, id: nat, last: nat, record: Batch) returns (t: System)
    requires id <= last < |s.writers| && s.writers[id].phase == Logging(last, record)
    ensures Next(s, LogAndApply(id, Ok), t)
  {
    hide BatchEntries, Decided;
    t := s.(writers := Decided(s.writers, id, last, Committed, Settling(last, |record.ops|, Ok)),
            log := s.log + [record], applied := s.applied + BatchEntries(record),
            synced := if s.writers[id].sync then |s.log| + 1 else s.synced);
  }

  lemma CanSettle(s: System, id: nat) returns (t: System)
    requires ControlOk(s) && GroupOk(s) && Running(s) && id == Front(s) && s.writers[id].phase.Settling?
    ensures Next(s, Settle(id), t)
  {
    var ws := s.writers;
    var Settling(last, count, status) := ws[id].phase;
    assert id <= last < |ws|;
    hide GroupOk;
    t := s.(writers := seq(|ws|, i requires 0 <= i < |ws| =>
              if i == id then ws[i].(phase := Returned(status))
              else if id < i <= last then ws[i].(done := Some(status), phase := Waiting(true))
              else if i == last + 1 then ws[i].(phase := Waiting(true))
              else ws[i]),
            queue := s.queue[last - id + 1..], lastSequence := s.lastSequence + count, failed := s.failed || status.SyncError?);
  }

  lemma CanWake(s: System, id: nat) returns (t: System)
    requires id < |s.writers| && s.writers[id].phase.Waiting?
    ensures Next(s, Wake(id), t)
  {
    var w := s.writers[id];
    var phase := if w.done.Some? then Returned(w.done.value) else if s.queue != [] && s.queue[0] == id then Leading else Waiting(false);
    t := s.(writers := s.writers[id := w.(phase := phase)]);
  }

  lemma HeadCanStep(s: System)
    requires ControlOk(s) && GroupOk(s) && s.queue != []
    ensures !Stuck(s)
  {
    var id := Front(s);
    assert s.queue[0] == id && Running(s) && s.writers[id].done.None?;
    hide Next, GroupOk;
    var p := s.writers[id].phase;
    if p.Leading? {
      var a, t := CanMakeRoom(s, id);
    } else if p.Logging? {
      var t := CanLog(s, id);
      assert Internal(s, LogAndApply(id, Ok));
    } else if p.Settling? {
      var t := CanSettle(s, id);
      assert Internal(s, Settle(id));
    } else {
      var t := CanWake(s, id);
      assert Internal(s, Wake(id));
    }
  }

  /** No deadlock: when nothing can happen any more, every writer has returned. */
  lemma StuckMeansReturned(s: System)
    requires Inv(s)
    ensures Stuck(s) ==> s.queue == [] && forall i :: 0 <= i < |s.writers| ==> s.writers[i].phase.Returned?
  {
    hide DecidedOk, StatusesOk, LeadersOk, GroupOk, FailureOk, TailOk, ContentOk, NumbersOk, Stuck;
    if s.queue != [] {
      HeadCanStep(s);
    } else {
      forall i: nat | i < |s.writers| && Stuck(s) ensures s.writers[i].phase.Returned? {
        ToldCanStep(s, i);
      }
    }
  }

  lemma ToldCanStep(s: System, i: nat)
    requires i < |s.writers|
    ensures s.writers[i].phase.Waiting? && s.writers[i].done.Some? ==> !Stuck(s)
  {
    hide Next;
    if s.writers[i].phase.Waiting? && s.writers[i].done.Some? {
      var t := CanWake(s, i);
      assert Internal(s, Wake(i));
    }
  }

  /** From any reachable state the writers' own steps come to an end, and then every writer has
      returned with the status that tells what became of its batch. */
  lemma {:induction false} EveryWriterReturns(states: seq<System>, actions: seq<Action>)
    requires |states| == |actions| + 1 && Inv(states[0])
    requires forall k :: 0 <= k < |actions| ==> Next(states[k], actions[k], states[k + 1]) && Internal(states[k], actions[k])
    ensures |actions| <= Measure(states[0].writers)
    ensures var s := states[|actions|];
            Stuck(s) ==> forall i :: 0 <= i < |s.writers| ==>
              s.writers[i].phase.Returned? && s.writers[i].fate == FateOf(s.writers[i].phase.status)
  {
    hide *;
    if actions == [] {
      AllReturned(states[0]);
    } else {
      NextInv(states[0], actions[0], states[1]);
      InternalDecreases(states[0], actions[0], states[1]);
      EveryWriterReturns(states[1..], actions[1..]);
    }
  }

  lemma AllReturned(s: System)
    requires Inv(s)
    ensures Stuck(s) ==> forall i :: 0 <= i < |s.writers| ==>
              s.writers[i].phase.Returned? && s.writers[i].fate == FateOf(s.writers[i].phase.status)
  {
    hide ControlOk, DecidedOk, LeadersOk, GroupOk, FailureOk, TailOk, ContentOk, NumbersOk, Stuck;
    StuckMeansReturned(s);
  }
}
