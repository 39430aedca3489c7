/** Every step of the write queue keeps its invariant. */
module GroupCommitProof {
  import opened Optional
  import opened Batches
  import opened WriteQueue
  import opened GroupCommit

  // ---------------------------------------------------------------- entering and waking

  lemma EnterControl(s: System, batch: Option<WriteBatch>, sync: bool, t: System)
    requires ControlOk(s) && NextEnter(s, batch, sync, t)
    ensures ControlOk(t) && Front(t) == Front(s) && t.writers[..|s.writers|] == s.writers
    ensures Running(s) ==> t.writers[Front(t)].phase == s.writers[Front(s)].phase
    ensures Reach(t) == Reach(s) && t.writers[|s.writers|].fate.Queued?
    ensures !Running(s) ==> t.writers[Front(t)].phase.Leading?
  {
  }

  lemma EnterFates(s: System, batch: Option<WriteBatch>, sync: bool, t: System)
    requires ControlOk(s) && DecidedOk(s) && StatusesOk(s) && LeadersOk(s) && NextEnter(s, batch, sync, t)
    ensures DecidedOk(t) && StatusesOk(t) && LeadersOk(t)
  {
    EnterControl(s, batch, sync, t);
    hide ControlOk, Reach;
    assert forall i :: 0 <= i < |s.writers| ==> t.writers[i] == s.writers[i];
    hide StatusOf, FateOf;
  }

  lemma EnterFailure(s: System, batch: Option<WriteBatch>, sync: bool, t: System)
    requires ControlOk(s) && FailureOk(s) && NextEnter(s, batch, sync, t)
    ensures FailureOk(t)
  {
    EnterControl(s, batch, sync, t);
    hide ControlOk, Reach;
    assert forall i :: 0 <= i < |s.writers| ==> t.writers[i] == s.writers[i];
  }

  /** Nothing about the head's group changed. */
  lemma GroupSame(s: System, t: System)
    requires GroupOk(s) && Running(s) && Front(t) == Front(s) && |t.writers| >= |s.writers|
    requires t.lastSequence == s.lastSequence && t.failed == s.failed
    requires t.writers[Front(t)].phase == s.writers[Front(s)].phase
    requires forall i :: Front(s) <= i < |s.writers| ==> t.writers[i].leader == s.writers[i].leader && Alike(s.writers[i], t.writers[i])
    ensures GroupOk(t)
  {
    hide AllOps;
    var f := Front(s);
    if s.writers[f].phase.Logging? {
      GroupOpsSame(s.writers, t.writers, f);
    }
  }

  lemma GroupOpsSame(ws: seq<Writer>, xs: seq<Writer>, f: nat)
    requires f <= |ws| <= |xs| && forall i :: f <= i < |ws| ==> ws[i].batch == xs[i].batch
    ensures forall n :: 0 <= n <= |ws| - f ==> AllOps(ws, f, n) == AllOps(xs, f, n)
  {
    forall n | 0 <= n <= |ws| - f ensures AllOps(ws, f, n) == AllOps(xs, f, n) {
      AllOpsSame(ws, xs, f, n);
    }
  }

  lemma EnterGroup(s: System, batch: Option<WriteBatch>, sync: bool, t: System)
    requires ControlOk(s) && GroupOk(s) && NextEnter(s, batch, sync, t)
    ensures GroupOk(t)
  {
    EnterControl(s, batch, sync, t);
    hide ControlOk, Reach;
    assert forall i :: 0 <= i < |s.writers| ==> t.writers[i] == s.writers[i];
    if Running(s) {
      hide GroupOk;
      GroupSame(s, t);
    }
  }

  lemma EnterContent(s: System, batch: Option<WriteBatch>, sync: bool, t: System)
    requires ControlOk(s) && ContentOk(s) && NumbersOk(s) && NextEnter(s, batch, sync, t)
    ensures ContentOk(t) && NumbersOk(t)
  {
    EnterControl(s, batch, sync, t);
    hide ControlOk, Reach;
    var n := |s.writers|;
    assert forall i :: 0 <= i < n ==> t.writers[i] == s.writers[i];
    PrefixSame(s.writers, t.writers, n);
    Uncounted(t.writers, n, n + 1);
    forall i | 0 <= i <= n ensures Total(t.writers, i) == Total(s.writers, i) { PrefixSame(s.writers, t.writers, i); }
  }

  // ---------------------------------------------------------------- steps that change phases

  /** Same batches and fates, only phases, `done` or the numbers of undecided writers differ. */
  lemma SameContent(s: System, t: System)
    requires ContentOk(s) && |t.writers| == |s.writers| && t.log == s.log && t.applied == s.applied
    requires forall i :: 0 <= i < |s.writers| && Numbered(s.writers[i]) ==> Alike(s.writers[i], t.writers[i])
    requires forall i :: 0 <= i < |s.writers| && !Numbered(s.writers[i]) ==> !Numbered(t.writers[i])
    ensures ContentOk(t)
    ensures forall i :: 0 <= i <= |s.writers| ==> Total(t.writers, i) == Total(s.writers, i)
  {
    forall i | 0 <= i <= |s.writers|
      ensures Total(t.writers, i) == Total(s.writers, i)
      ensures Entries(t.writers, i, true) == Entries(s.writers, i, true) && Entries(t.writers, i, false) == Entries(s.writers, i, false)
    {
      SameUpTo(s.writers, t.writers, i);
    }
  }

  lemma {:induction false} SameUpTo(ws: seq<Writer>, xs: seq<Writer>, n: nat)
    requires n <= |ws| == |xs|
    requires forall i :: 0 <= i < |ws| && Numbered(ws[i]) ==> Alike(ws[i], xs[i])
    requires forall i :: 0 <= i < |ws| && !Numbered(ws[i]) ==> !Numbered(xs[i])
    ensures Total(ws, n) == Total(xs, n)
    ensures Entries(ws, n, true) == Entries(xs, n, true) && Entries(ws, n, false) == Entries(xs, n, false)
  {
    if n > 0 { SameUpTo(ws, xs, n - 1); }
  }

  lemma WakeControl(s: System, id: nat, t: System)
    requires ControlOk(s) && NextWake(s, id, t)
    ensures ControlOk(t) && Front(t) == Front(s) && |t.writers| == |s.writers|
    ensures forall i :: 0 <= i < |s.writers| ==> t.writers[i] == s.writers[i].(phase := t.writers[i].phase)
    ensures Reach(t) == Reach(s)
    ensures Running(s) ==> t.writers[Front(t)].phase == s.writers[Front(s)].phase || t.writers[Front(t)].phase.Leading?
    ensures Running(s) && !s.writers[Front(s)].phase.Waiting? ==> t.writers[Front(t)].phase == s.writers[Front(s)].phase
    ensures forall i :: 0 <= i < Front(s) ==> StatusOf(t.writers[i]) == StatusOf(s.writers[i])
  {
  }

  lemma WakeGroup(s: System, id: nat, t: System)
    requires ControlOk(s) && GroupOk(s) && NextWake(s, id, t)
    ensures GroupOk(t)
  {
    WakeControl(s, id, t);
    assert t.lastSequence == s.lastSequence && t.failed == s.failed;
    hide ControlOk, Reach, NextWake;
    if Running(s) && t.writers[Front(t)].phase == s.writers[Front(s)].phase {
      hide GroupOk;
      GroupSame(s, t);
    }
  }

  lemma WakeFates(s: System, id: nat, t: System)
    requires ControlOk(s) && DecidedOk(s) && StatusesOk(s) && LeadersOk(s) && FailureOk(s) && NextWake(s, id, t)
    ensures DecidedOk(t) && StatusesOk(t) && LeadersOk(t) && FailureOk(t)
  {
    WakeControl(s, id, t);
    assert t.failed == s.failed;
    hide ControlOk, Reach, NextWake, StatusOf;
    assert forall i :: 0 <= i < |s.writers| ==> t.writers[i].fate == s.writers[i].fate && t.writers[i].sync == s.writers[i].sync;
  }

  lemma WakeContent(s: System, id: nat, t: System)
    requires ControlOk(s) && ContentOk(s) && NumbersOk(s) && NextWake(s, id, t)
    ensures ContentOk(t) && NumbersOk(t)
  {
    WakeControl(s, id, t);
    hide ControlOk, Reach;
    SameContent(s, t);
  }

  // ---------------------------------------------------------------- making room

  lemma QueueIs(s: System)
    requires QueueOk(s)
    ensures InQueue(s) == s.writers[Front(s)..]
  {
  }

  /** What a group's formation changes: the leader's phase and the members' numbers. */
  lemma MakeRoomParts(s: System, id: nat, ok: bool, n: nat, t: System)
    requires ControlOk(s) && NextMakeRoom(s, id, ok, n, t)
    ensures Running(s) && id == Front(s) == Front(t) && |t.writers| == |s.writers|
    ensures t == s.(writers := t.writers)
    ensures forall i :: 0 <= i < |s.writers| && i != id ==>
              t.writers[i] == s.writers[i].(start := t.writers[i].start, leader := t.writers[i].leader)
    ensures forall i :: 0 <= i < id ==> t.writers[i] == s.writers[i]
    ensures t.writers[id] == s.writers[id].(phase := t.writers[id].phase, start := t.writers[id].start,
                                            leader := t.writers[id].leader, fate := t.writers[id].fate)
    ensures t.writers[id].phase.Logging? || t.writers[id].phase.Settling?
    ensures t.writers[id].phase.Settling? ==>
              var p := t.writers[id].phase;
              && p.last == id && p.count == 0 && p.status == (if ok then Ok else RoomError) && t.writers[id].fate == FateOf(p.status)
              && (ok ==> s.writers[id].batch.None? && !s.failed) && t.writers[id].leader == id && t.writers[id].start == s.lastSequence + 1
    ensures t.writers[id].phase.Logging? ==> t.writers[id].fate == s.writers[id].fate
  {
    hide IsGroup, AllOps, InQueue;
  }

  lemma MakeRoomControl(s: System, id: nat, ok: bool, n: nat, t: System)
    requires ControlOk(s) && NextMakeRoom(s, id, ok, n, t)
    ensures ControlOk(t)
  {
    MakeRoomParts(s, id, ok, n, t);
    hide NextMakeRoom;
  }

  lemma MakeRoomDecided(s: System, id: nat, ok: bool, n: nat, t: System)
    requires ControlOk(s) && DecidedOk(s) && NextMakeRoom(s, id, ok, n, t)
    ensures DecidedOk(t)
  {
    MakeRoomParts(s, id, ok, n, t);
    assert s.writers[Front(s)].phase.Leading?;
    hide NextMakeRoom, ControlOk;
  }

  lemma MakeRoomStatuses(s: System, id: nat, ok: bool, n: nat, t: System)
    requires ControlOk(s) && StatusesOk(s) && NextMakeRoom(s, id, ok, n, t)
    ensures StatusesOk(t)
  {
    MakeRoomParts(s, id, ok, n, t);
    hide NextMakeRoom, ControlOk, StatusOf, FateOf;
  }

  lemma MakeRoomLeaders(s: System, id: nat, ok: bool, n: nat, t: System)
    requires ControlOk(s) && DecidedOk(s) && LeadersOk(s) && NextMakeRoom(s, id, ok, n, t)
    ensures LeadersOk(t)
  {
    MakeRoomParts(s, id, ok, n, t);
    assert s.writers[Front(s)].phase.Leading?;
    assert forall i :: id < i < |s.writers| ==> !Numbered(t.writers[i]);
    hide NextMakeRoom, ControlOk, DecidedOk;
  }

  lemma MakeRoomFailure(s: System, id: nat, ok: bool, n: nat, t: System)
    requires ControlOk(s) && FailureOk(s) && NextMakeRoom(s, id, ok, n, t)
    ensures FailureOk(t)
  {
    MakeRoomParts(s, id, ok, n, t);
    hide NextMakeRoom, ControlOk;
  }

  lemma MakeRoomContent(s: System, id: nat, ok: bool, n: nat, t: System)
    requires Inv(s) && NextMakeRoom(s, id, ok, n, t)
    ensures ContentOk(t) && NumbersOk(t)
  {
    hide *;
    InvParts(s);
    MakeRoomQueued(s, id, ok, n, t);
    MakeRoomSame(s.writers, t.writers, id);
    ContentParts(s);
    MakeRoomIntro(s, id, t);
  }

  /** The leader and everyone behind it add nothing before, and nothing after either. */
  ghost predicate AddsNothing(ws: seq<Writer>, xs: seq<Writer>, id: nat) {
    && id < |ws| == |xs| && (forall i :: 0 <= i < id ==> Alike(ws[i], xs[i]))
    && (forall i :: id <= i < |ws| ==> !Numbered(ws[i]))
    && (forall i :: id < i < |ws| ==> !Numbered(xs[i])) && (!Numbered(xs[id]) || xs[id].batch.None?)
  }

  lemma MakeRoomQueued(s: System, id: nat, ok: bool, n: nat, t: System)
    requires ControlOk(s) && DecidedOk(s) && NumbersOk(s) && NextMakeRoom(s, id, ok, n, t)
    ensures AddsNothing(s.writers, t.writers, id) && id == Front(s) == Front(t) && t == s.(writers := t.writers)
    ensures Total(s.writers, |s.writers|) == s.lastSequence
    ensures t.writers[id].phase.Settling? ==> t.writers[id].phase.count == 0
    ensures Numbered(t.writers[id]) ==> t.writers[id].start == s.lastSequence + 1
  {
    assert s.writers[id].phase.Leading?;
    MakeRoomParts(s, id, ok, n, t);
    hide NextMakeRoom, Total;
    assert forall i :: id <= i < |s.writers| ==> s.writers[i].fate.Queued?;
    hide ControlOk, DecidedOk;
  }

  lemma MakeRoomSame(ws: seq<Writer>, xs: seq<Writer>, id: nat)
    requires AddsNothing(ws, xs, id)
    ensures |ws| == |xs| && Entries(xs, |xs|, true) == Entries(ws, |ws|, true) && Entries(xs, |xs|, false) == Entries(ws, |ws|, false)
    ensures Total(xs, |xs|) == Total(ws, |ws|) == Total(xs, id)
    ensures forall i :: 0 <= i <= id ==> Total(xs, i) == Total(ws, i)
  {
    hide Entries, Total;
    PrefixSame(ws, xs, id);
    Uncounted(ws, id, |ws|);
    Uncounted(xs, id + 1, |ws|);
    NullEntries(xs, id);
    forall i | 0 <= i <= id ensures Total(xs, i) == Total(ws, i) { PrefixSame(ws, xs, i); }
  }

  lemma MakeRoomIntro(s: System, id: nat, t: System)
    requires NumbersOk(s) && AddsNothing(s.writers, t.writers, id) && id == Front(s) == Front(t) && t == s.(writers := t.writers)
    requires LogEntries(s.log) == Entries(t.writers, |t.writers|, false) && s.applied == Entries(t.writers, |t.writers|, true)
    requires Total(t.writers, |t.writers|) == s.lastSequence == Total(t.writers, id)
    requires forall i :: 0 <= i <= id ==> Total(t.writers, i) == Total(s.writers, i)
    requires t.writers[id].phase.Settling? ==> t.writers[id].phase.count == 0
    requires Numbered(t.writers[id]) ==> t.writers[id].start == s.lastSequence + 1
    ensures ContentOk(t) && NumbersOk(t)
  {
    hide Entries, Total, LogEntries;
  }

  /** A writer without a batch, or not numbered, adds nothing. */
  lemma NullEntries(ws: seq<Writer>, i: nat)
    requires i < |ws| && (!Numbered(ws[i]) || ws[i].batch.None?)
    ensures Total(ws, i + 1) == Total(ws, i)
    ensures Entries(ws, i + 1, true) == Entries(ws, i, true) && Entries(ws, i + 1, false) == Entries(ws, i, false)
  {
    assert BatchEntries(Batch(ws[i].start, [])) == [];
  }

  lemma MakeRoomGroup(s: System, id: nat, ok: bool, n: nat, t: System)
    requires ControlOk(s) && GroupOk(s) && NextMakeRoom(s, id, ok, n, t)
    ensures GroupOk(t)
  {
    MakeRoomParts(s, id, ok, n, t);
    if t.writers[id].phase.Logging? {
      GroupSyncs(s, id, n);
      hide ControlOk, IsGroup, AllOps, InQueue, GroupOk;
      FormedGroup(s, id, n, t);
    }
  }

  lemma GroupSyncs(s: System, f: nat, n: nat)
    requires QueueOk(s) && f == Front(s) && IsGroup(InQueue(s), n)
    ensures f + n <= |s.writers| && forall i :: f <= i < f + n ==> s.writers[i].sync ==> s.writers[f].sync
  {
    var ws := InQueue(s);
    forall i | f < i < f + n ensures s.writers[i].sync ==> s.writers[f].sync {
      assert Joins(ws, i - f) && ws[i - f] == s.writers[i] && ws[0] == s.writers[f];
    }
  }

  lemma FormedGroup(s: System, f: nat, n: nat, t: System)
    requires f == Front(s) == Front(t) && f < |s.writers| == |t.writers| && 0 < n <= |s.writers| - f && !s.failed
    requires t == s.(writers := t.writers) && Starts(s.writers, t.writers, f, n, s.lastSequence + 1, f) && s.writers[f].batch.Some?
    requires t.writers[f].phase == Logging(f + n - 1, Batch(s.lastSequence + 1, AllOps(s.writers, f, n)))
    requires forall i :: f <= i < f + n ==> s.writers[i].sync ==> s.writers[f].sync
    ensures GroupOk(t)
  {
    hide AllOps;
    GroupOpsSame(s.writers, t.writers, f);
  }

  // ---------------------------------------------------------------- logging

  lemma LogParts(s: System, id: nat, outcome: Status, t: System)
    requires ControlOk(s) && GroupOk(s) && NextLogAndApply(s, id, outcome, t)
    ensures Running(s) && id == Front(s) == Front(t) && id < |t.writers| == |s.writers| && t.queue == s.queue
    ensures s.writers[id].phase.Logging? && s.writers[id].batch.Some? && t.lastSequence == s.lastSequence && t.failed == s.failed == false
    ensures var last, record := s.writers[id].phase.last, s.writers[id].phase.record;
            && id <= last < |s.writers| && t.writers[id].phase == Settling(last, |record.ops|, outcome) && !outcome.RoomError?
            && record == Batch(s.lastSequence + 1, AllOps(s.writers, id, last - id + 1))
            && t.log == (if outcome.LogError? then s.log else s.log + [record])
            && t.applied == (if outcome.Ok? then s.applied + BatchEntries(record) else s.applied)
            && (forall i :: 0 <= i < |s.writers| && !(id <= i <= last) ==> t.writers[i] == s.writers[i])
            && (forall i :: id <= i <= last ==>
                  t.writers[i] == s.writers[i].(fate := FateOf(outcome), phase := t.writers[i].phase))
            && (forall i :: id < i <= last ==> t.writers[i].phase == s.writers[i].phase)
  {
    hide AllOps, BatchEntries, Consecutive;
  }

  lemma LogControl(s: System, id: nat, outcome: Status, t: System)
    requires ControlOk(s) && GroupOk(s) && NextLogAndApply(s, id, outcome, t)
    ensures ControlOk(t) && GroupOk(t)
  {
    hide *;
    LogParts(s, id, outcome, t);
    LogStays(s, id, t);
    LogGroup(s, id, t);
  }

  lemma LogStays(s: System, id: nat, t: System)
    requires ControlOk(s) && id == Front(s) == Front(t) && id < |t.writers| == |s.writers| && t.queue == s.queue
    requires t.writers[id].phase.Settling? && forall i :: 0 <= i < |s.writers| ==> t.writers[i].done == s.writers[i].done
    requires forall i :: 0 <= i < |s.writers| && i != id ==> t.writers[i].phase == s.writers[i].phase
    ensures ControlOk(t)
  {
  }

  lemma LogGroup(s: System, id: nat, t: System)
    requires id == Front(t) < |t.writers| && t.writers[id].phase.Settling? && !t.failed && t.writers[id].batch.Some?
    requires var p := t.writers[id].phase;
             id <= p.last < |t.writers| && forall i :: id <= i <= p.last ==> t.writers[i].fate == FateOf(p.status)
    ensures GroupOk(t)
  {
  }

  lemma LogDecided(s: System, id: nat, outcome: Status, t: System)
    requires ControlOk(s) && GroupOk(s) && DecidedOk(s) && NextLogAndApply(s, id, outcome, t)
    ensures DecidedOk(t)
  {
    LogParts(s, id, outcome, t);
    assert s.writers[Front(s)].phase.Logging?;
    hide AllOps, BatchEntries, Consecutive, NextLogAndApply, GroupOk, ControlOk;
  }

  lemma LogStatuses(s: System, id: nat, outcome: Status, t: System)
    requires ControlOk(s) && GroupOk(s) && StatusesOk(s) && NextLogAndApply(s, id, outcome, t)
    ensures StatusesOk(t)
  {
    LogParts(s, id, outcome, t);
    hide AllOps, BatchEntries, Consecutive, NextLogAndApply, GroupOk, ControlOk, StatusOf, FateOf;
  }

  lemma LogLeaders(s: System, id: nat, outcome: Status, t: System)
    requires ControlOk(s) && GroupOk(s) && LeadersOk(s) && NextLogAndApply(s, id, outcome, t)
    ensures LeadersOk(t)
  {
    hide *;
    LogParts(s, id, outcome, t);
    LogLed(s, id);
    LedStays(s, id, s.writers[id].phase.last, t);
  }

  lemma LogLed(s: System, id: nat)
    requires GroupOk(s) && Running(s) && id == Front(s) && s.writers[id].phase.Logging?
    ensures forall i :: id <= i <= s.writers[id].phase.last && i < |s.writers| ==>
              s.writers[i].leader == id && (s.writers[i].sync ==> s.writers[id].sync)
  {
    hide AllOps, Consecutive;
  }

  lemma LedStays(s: System, id: nat, last: nat, t: System)
    requires LeadersOk(s) && id <= last < |s.writers| == |t.writers|
    requires forall i :: 0 <= i < |s.writers| ==> t.writers[i].leader == s.writers[i].leader && t.writers[i].sync == s.writers[i].sync
    requires forall i :: 0 <= i < |s.writers| && !(id <= i <= last) ==> t.writers[i].fate == s.writers[i].fate
    requires forall i :: id <= i <= last ==> s.writers[i].leader == id && (s.writers[i].sync ==> s.writers[id].sync)
    ensures LeadersOk(t)
  {
  }

  lemma LogFailure(s: System, id: nat, outcome: Status, t: System)
    requires ControlOk(s) && GroupOk(s) && FailureOk(s) && NextLogAndApply(s, id, outcome, t)
    ensures FailureOk(t)
  {
    LogParts(s, id, outcome, t);
    assert s.writers[Front(s)].phase.Logging?;
    hide AllOps, BatchEntries, Consecutive, NextLogAndApply, GroupOk, ControlOk;
  }

  /** The writers before and after logging: a decided prefix, the group, and those still queued. */
  ghost predicate Decides(ws: seq<Writer>, xs: seq<Writer>, id: nat, n: nat, fate: Fate) {
    && id + n <= |ws| == |xs| && !fate.Queued? && !fate.Skipped?
    && (forall i :: 0 <= i < id ==> Alike(ws[i], xs[i]))
    && (forall i :: id <= i < |ws| ==> !Numbered(ws[i]))
    && (forall i :: id + n <= i < |ws| ==> !Numbered(xs[i]))
    && (forall i :: id <= i < id + n ==> xs[i].fate == fate && xs[i].start == ws[i].start && xs[i].batch == ws[i].batch)
  }

  lemma LogDecides(s: System, id: nat, outcome: Status, t: System)
    requires ControlOk(s) && GroupOk(s) && DecidedOk(s) && NextLogAndApply(s, id, outcome, t)
    ensures Running(s) && s.writers[id].phase.last >= id
    ensures Decides(s.writers, t.writers, id, s.writers[id].phase.last - id + 1, FateOf(outcome))
    ensures Consecutive(s.writers, id, s.writers[id].phase.last - id + 1, s.lastSequence + 1)
  {
    hide *;
    LogParts(s, id, outcome, t);
    LogQueued(s, id);
    DecidesIntro(s.writers, t.writers, id, s.writers[id].phase.last - id + 1, outcome);
  }

  lemma DecidesIntro(ws: seq<Writer>, xs: seq<Writer>, id: nat, n: nat, outcome: Status)
    requires id + n <= |ws| == |xs| && !outcome.RoomError?
    requires forall i :: id <= i < |ws| ==> ws[i].fate.Queued?
    requires forall i :: 0 <= i < |ws| && !(id <= i < id + n) ==> xs[i] == ws[i]
    requires forall i :: id <= i < id + n ==> xs[i] == ws[i].(fate := FateOf(outcome), phase := xs[i].phase)
    ensures Decides(ws, xs, id, n, FateOf(outcome))
  {
  }

  lemma LogQueued(s: System, id: nat)
    requires GroupOk(s) && DecidedOk(s) && Running(s) && id == Front(s) && s.writers[id].phase.Logging?
    ensures forall i :: id <= i < |s.writers| ==> s.writers[i].fate.Queued?
    ensures id <= s.writers[id].phase.last < |s.writers|
    ensures Consecutive(s.writers, id, s.writers[id].phase.last - id + 1, s.lastSequence + 1)
  {
    hide AllOps, Consecutive;
  }

  lemma DecidesConsecutive(ws: seq<Writer>, xs: seq<Writer>, id: nat, n: nat, fate: Fate, seqno: nat)
    requires Decides(ws, xs, id, n, fate) && Consecutive(ws, id, n, seqno)
    ensures Consecutive(xs, id, n, seqno) && AllOps(xs, id, n) == AllOps(ws, id, n)
  {
    hide AllOps;
    forall i | 0 <= i <= n ensures AllOps(ws, id, i) == AllOps(xs, id, i) {
      AllOpsSame(ws, xs, id, i);
    }
  }

  /** Outside the group nothing counts that did not count before. */
  lemma DecidesEnds(ws: seq<Writer>, xs: seq<Writer>, id: nat, n: nat, fate: Fate, memtable: bool)
    requires Decides(ws, xs, id, n, fate)
    ensures id + n <= |ws| == |xs|
    ensures Entries(xs, id, memtable) == Entries(ws, |ws|, memtable) && Entries(xs, |xs|, memtable) == Entries(xs, id + n, memtable)
    ensures Total(xs, id) == Total(ws, |ws|) && Total(xs, |xs|) == Total(xs, id + n)
  {
    hide Entries, Total;
    PrefixSame(ws, xs, id);
    Uncounted(ws, id, |ws|);
    Uncounted(xs, id + n, |ws|);
  }

  lemma DecidesCounts(ws: seq<Writer>, xs: seq<Writer>, id: nat, n: nat, fate: Fate, memtable: bool)
    requires Decides(ws, xs, id, n, fate)
    ensures id + n <= |xs|
    ensures forall i :: id <= i < id + n ==>
              Numbered(xs[i]) && (Counts(xs[i], memtable) <==> fate.Committed? || (fate.LoggedOnly? && !memtable))
  {
  }

  /** Deciding a group adds its record, or nothing. */
  lemma DecidesEntries(ws: seq<Writer>, xs: seq<Writer>, id: nat, n: nat, fate: Fate, seqno: nat, memtable: bool)
    requires id + n <= |ws| && Decides(ws, xs, id, n, fate) && Consecutive(ws, id, n, seqno)
    ensures Entries(xs, |xs|, memtable) == Entries(ws, |ws|, memtable) +
            if fate.Committed? || (fate.LoggedOnly? && !memtable) then BatchEntries(Batch(seqno, AllOps(ws, id, n))) else []
  {
    hide *;
    DecidesEnds(ws, xs, id, n, fate, memtable);
    DecidesConsecutive(ws, xs, id, n, fate, seqno);
    DecidesCounts(ws, xs, id, n, fate, memtable);
    if fate.Committed? || (fate.LoggedOnly? && !memtable) {
      GroupEntries(xs, id, n, seqno, memtable);
    } else {
      UncountedIn(xs, id, id + n, memtable);
    }
  }

  lemma DecidesTotal(ws: seq<Writer>, xs: seq<Writer>, id: nat, n: nat, fate: Fate, seqno: nat)
    requires id + n <= |ws| && Decides(ws, xs, id, n, fate) && Consecutive(ws, id, n, seqno)
    ensures |xs| == |ws| && Total(xs, |xs|) == Total(ws, |ws|) + |AllOps(ws, id, n)| && Total(xs, id) == Total(ws, |ws|)
  {
    hide *;
    DecidesEnds(ws, xs, id, n, fate, true);
    DecidesConsecutive(ws, xs, id, n, fate, seqno);
    DecidesCounts(ws, xs, id, n, fate, true);
    GroupTotal(xs, id, n);
  }

  lemma DecidesStart(ws: seq<Writer>, xs: seq<Writer>, id: nat, n: nat, fate: Fate, seqno: nat, i: nat)
    requires id + n <= |ws| && Decides(ws, xs, id, n, fate) && Consecutive(ws, id, n, seqno) && seqno == Total(ws, |ws|) + 1
    requires i < |ws| && |ws| == |xs| && (Numbered(ws[i]) ==> ws[i].start == 1 + Total(ws, i)) && Numbered(xs[i])
    ensures xs[i].start == 1 + Total(xs, i)
  {
    hide *;
    if i < id {
      EarlierStart(ws, xs, id, n, fate, i);
    } else {
      DecidesEnds(ws, xs, id, n, fate, true);
      DecidesConsecutive(ws, xs, id, n, fate, seqno);
      DecidesMember(ws, xs, id, n, fate, i);
      GroupTotal(xs, id, i - id);
      StartIs(xs, id, n, seqno, i);
    }
  }

  lemma EarlierStart(ws: seq<Writer>, xs: seq<Writer>, id: nat, n: nat, fate: Fate, i: nat)
    requires Decides(ws, xs, id, n, fate) && i < id
    ensures Alike(ws[i], xs[i]) && Total(xs, i) == Total(ws, i) && xs[i].start == ws[i].start && (Numbered(ws[i]) <==> Numbered(xs[i]))
  {
    hide Total;
    PrefixSame(ws, xs, i);
  }

  lemma DecidesMember(ws: seq<Writer>, xs: seq<Writer>, id: nat, n: nat, fate: Fate, i: nat)
    requires Decides(ws, xs, id, n, fate) && id <= i < |xs| && Numbered(xs[i])
    ensures i < id + n && forall k :: id <= k < id + n ==> Numbered(xs[k])
  {
  }

  lemma StartIs(xs: seq<Writer>, id: nat, n: nat, seqno: nat, i: nat)
    requires Consecutive(xs, id, n, seqno) && id <= i < id + n
    ensures i < |xs| && xs[i].start == seqno + |AllOps(xs, id, i - id)|
  {
    hide AllOps;
  }

  lemma LogWrites(s: System, id: nat, outcome: Status, t: System)
    requires ControlOk(s) && GroupOk(s) && NextLogAndApply(s, id, outcome, t)
    ensures id < |s.writers| && s.writers[id].phase.Logging? && id <= s.writers[id].phase.last < |s.writers|
    ensures var record := s.writers[id].phase.record;
            && record == Batch(s.lastSequence + 1, AllOps(s.writers, id, s.writers[id].phase.last - id + 1))
            && t.log == (if outcome.LogError? then s.log else s.log + [record]) && !outcome.RoomError?
            && t.applied == s.applied + if outcome.Ok? then BatchEntries(record) else []
  {
    hide *;
    LogParts(s, id, outcome, t);
  }

  lemma LogContent(s: System, id: nat, outcome: Status, t: System)
    requires ControlOk(s) && GroupOk(s) && DecidedOk(s) && ContentOk(s) && NextLogAndApply(s, id, outcome, t)
    ensures ContentOk(t)
  {
    hide *;
    LogHolds(s, id, outcome, t);
    MemtableHolds(s, id, outcome, t);
    ContentIntro(t);
  }

  lemma MemtableHolds(s: System, id: nat, outcome: Status, t: System)
    requires ControlOk(s) && GroupOk(s) && DecidedOk(s) && ContentOk(s) && NextLogAndApply(s, id, outcome, t)
    ensures t.applied == Entries(t.writers, |t.writers|, true)
  {
    hide *;
    LogWrites(s, id, outcome, t);
    var n := s.writers[id].phase.last - id + 1;
    LogDecides(s, id, outcome, t);
    ContentParts(s);
    FateIs(outcome);
    DecidesEntries(s.writers, t.writers, id, n, FateOf(outcome), s.lastSequence + 1, true);
  }

  lemma LogHolds(s: System, id: nat, outcome: Status, t: System)
    requires ControlOk(s) && GroupOk(s) && DecidedOk(s) && ContentOk(s) && NextLogAndApply(s, id, outcome, t)
    ensures LogEntries(t.log) == Entries(t.writers, |t.writers|, false)
  {
    hide *;
    LogWrites(s, id, outcome, t);
    var n := s.writers[id].phase.last - id + 1;
    LogDecides(s, id, outcome, t);
    ContentParts(s);
    FateIs(outcome);
    LogAppend(s.log, s.writers[id].phase.record);
    DecidesEntries(s.writers, t.writers, id, n, FateOf(outcome), s.lastSequence + 1, false);
  }

  lemma FateIs(status: Status)
    ensures FateOf(status).Committed? <==> status.Ok?
    ensures FateOf(status).LoggedOnly? <==> status.SyncError?
    ensures FateOf(status).Skipped? <==> status.RoomError?
  {
  }

  lemma ContentParts(s: System)
    requires ContentOk(s)
    ensures LogEntries(s.log) == Entries(s.writers, |s.writers|, false) && s.applied == Entries(s.writers, |s.writers|, true)
  {
  }

  lemma ContentIntro(t: System)
    requires LogEntries(t.log) == Entries(t.writers, |t.writers|, false) && t.applied == Entries(t.writers, |t.writers|, true)
    ensures ContentOk(t)
  {
  }

  lemma LogNumbers(s: System, id: nat, outcome: Status, t: System)
    requires ControlOk(s) && GroupOk(s) && DecidedOk(s) && NumbersOk(s) && NextLogAndApply(s, id, outcome, t)
    ensures NumbersOk(t)
  {
    hide *;
    LogParts(s, id, outcome, t);
    var n := s.writers[id].phase.last - id + 1;
    LogDecides(s, id, outcome, t);
    NumbersParts(s, id);
    DecidesTotal(s.writers, t.writers, id, n, FateOf(outcome), s.lastSequence + 1);
    forall i | 0 <= i < |t.writers| && Numbered(t.writers[i]) ensures t.writers[i].start == 1 + Total(t.writers, i) {
      DecidesStart(s.writers, t.writers, id, n, FateOf(outcome), s.lastSequence + 1, i);
    }
    NumbersIntro(t, id);
  }

  lemma NumbersParts(s: System, id: nat)
    requires NumbersOk(s) && id == Front(s) < |s.writers| && s.writers[id].phase.Logging?
    ensures forall i :: 0 <= i < |s.writers| && Numbered(s.writers[i]) ==> s.writers[i].start == 1 + Total(s.writers, i)
    ensures Total(s.writers, |s.writers|) == s.lastSequence
  {
    hide Total;
  }

  lemma NumbersIntro(t: System, id: nat)
    requires id == Front(t) < |t.writers| && t.writers[id].phase.Settling?
    requires forall i :: 0 <= i < |t.writers| && Numbered(t.writers[i]) ==> t.writers[i].start == 1 + Total(t.writers, i)
    requires Total(t.writers, |t.writers|) == t.lastSequence + t.writers[id].phase.count && Total(t.writers, id) == t.lastSequence
    ensures NumbersOk(t)
  {
    hide Total;
  }

  // ---------------------------------------------------------------- settling

  lemma SettleParts(s: System, id: nat, t: System)
    requires ControlOk(s) && GroupOk(s) && NextSettle(s, id, t)
    ensures Running(s) && id == Front(s) && |t.writers| == |s.writers| && t.log == s.log && t.applied == s.applied
    ensures var Settling(last, count, status) := s.writers[id].phase;
            && id <= last < |s.writers| && Front(t) == last + 1 && t.lastSequence == s.lastSequence + count
            && t.failed == (s.failed || status.SyncError?)
            && (forall i :: 0 <= i < id ==> t.writers[i] == s.writers[i])
            && (forall i :: last + 1 < i < |s.writers| ==> t.writers[i] == s.writers[i])
            && (forall i :: id <= i <= last ==> StatusOf(t.writers[i]) == Some(status) && s.writers[i].fate == FateOf(status))
            && (Running(t) ==> t.writers[last + 1].phase == Waiting(true))
    ensures forall i :: 0 <= i < |s.writers| ==>
              t.writers[i] == s.writers[i].(phase := t.writers[i].phase, done := t.writers[i].done)
  {
    assert s.writers[Front(s)].phase.Settling?;
  }

  lemma SettleControl(s: System, id: nat, t: System)
    requires ControlOk(s) && GroupOk(s) && NextSettle(s, id, t)
    ensures ControlOk(t)
  {
    hide AllOps, Consecutive;
  }

  lemma SettleFates(s: System, id: nat, t: System)
    requires ControlOk(s) && GroupOk(s) && DecidedOk(s) && StatusesOk(s) && LeadersOk(s) && NextSettle(s, id, t)
    ensures DecidedOk(t) && StatusesOk(t) && LeadersOk(t) && GroupOk(t)
  {
    SettleParts(s, id, t);
    assert s.writers[Front(s)].phase.Settling?;
    hide ControlOk, NextSettle, StatusOf;
  }

  lemma SettleFailure(s: System, id: nat, t: System)
    requires ControlOk(s) && GroupOk(s) && FailureOk(s) && NextSettle(s, id, t)
    ensures FailureOk(t)
  {
    SettleParts(s, id, t);
    hide ControlOk, NextSettle, GroupOk;
  }

  lemma SettleContent(s: System, id: nat, t: System)
    requires ControlOk(s) && GroupOk(s) && ContentOk(s) && NumbersOk(s) && NextSettle(s, id, t)
    ensures ContentOk(t) && NumbersOk(t)
  {
    SettleParts(s, id, t);
    assert s.writers[Front(s)].phase.Settling?;
    hide ControlOk, NextSettle, GroupOk, Total;
    SameContent(s, t);
  }

  // ---------------------------------------------------------------- a failed sync comes last

  lemma NoneFailed(s: System)
    requires ControlOk(s) && FailureOk(s) && Running(s) && !s.failed && !s.writers[Front(s)].phase.Settling?
    ensures forall i :: 0 <= i < |s.writers| ==> !s.writers[i].fate.LoggedOnly?
  {
  }

  /** A step that changes no fate, or adds a queued writer. */
  lemma SameTail(s: System, t: System)
    requires TailOk(s) && |t.writers| >= |s.writers|
    requires forall i :: 0 <= i < |s.writers| ==> t.writers[i].fate == s.writers[i].fate
    requires forall i :: |s.writers| <= i < |t.writers| ==> t.writers[i].fate.Queued?
    ensures TailOk(t)
  {
  }

  lemma NextTail(s: System, a: Action, t: System)
    requires ControlOk(s) && DecidedOk(s) && GroupOk(s) && FailureOk(s) && TailOk(s) && Next(s, a, t)
    ensures TailOk(t)
  {
    hide ControlOk, DecidedOk, GroupOk, FailureOk, TailOk, NextEnter, NextWake, NextMakeRoom, NextLogAndApply, NextSettle;
    match a {
      case Enter(batch, sync) => EnterTail(s, batch, sync, t);
      case Wake(id) =>
        WakeControl(s, id, t);
        SameTail(s, t);
      case MakeRoom(id, ok, n) => MakeRoomTail(s, id, ok, n, t);
      case LogAndApply(id, outcome) => LogTail(s, id, outcome, t);
      case Settle(id) =>
        SettleParts(s, id, t);
        SameTail(s, t);
    }
  }

  lemma EnterTail(s: System, batch: Option<WriteBatch>, sync: bool, t: System)
    requires TailOk(s) && NextEnter(s, batch, sync, t)
    ensures TailOk(t)
  {
    hide TailOk;
    SameTail(s, t);
  }

  lemma MakeRoomTail(s: System, id: nat, ok: bool, n: nat, t: System)
    requires ControlOk(s) && FailureOk(s) && TailOk(s) && NextMakeRoom(s, id, ok, n, t)
    ensures TailOk(t)
  {
    assert s.writers[id].phase.Leading?;
    MakeRoomParts(s, id, ok, n, t);
    hide NextMakeRoom;
    if !s.failed { NoneFailed(s); }
    hide ControlOk, FailureOk;
  }

  lemma LogTail(s: System, id: nat, outcome: Status, t: System)
    requires ControlOk(s) && GroupOk(s) && DecidedOk(s) && FailureOk(s) && NextLogAndApply(s, id, outcome, t)
    ensures TailOk(t)
  {
    LogParts(s, id, outcome, t);
    NoneFailed(s);
    hide ControlOk, GroupOk, DecidedOk, FailureOk, NextLogAndApply, AllOps, BatchEntries;
  }

  // ---------------------------------------------------------------- every step

  lemma InvParts(s: System)
    requires Inv(s)
    ensures ControlOk(s) && DecidedOk(s) && StatusesOk(s) && LeadersOk(s) && GroupOk(s) && FailureOk(s) && TailOk(s) && ContentOk(s) && NumbersOk(s)
  {
  }

  lemma NextInv(s: System, a: Action, t: System)
    requires Inv(s) && Next(s, a, t)
    ensures Inv(t)
  {
    hide ControlOk, DecidedOk, StatusesOk, LeadersOk, GroupOk, FailureOk, TailOk, ContentOk, NumbersOk;
    hide NextEnter, NextWake, NextMakeRoom, NextLogAndApply, NextSettle;
    NextTail(s, a, t);
    match a {
      case Enter(batch, sync) =>
        EnterControl(s, batch, sync, t); EnterFates(s, batch, sync, t); EnterFailure(s, batch, sync, t);
        EnterGroup(s, batch, sync, t); EnterContent(s, batch, sync, t);
      case Wake(id) =>
        WakeControl(s, id, t); WakeGroup(s, id, t); WakeFates(s, id, t); WakeContent(s, id, t);
      case MakeRoom(id, ok, n) =>
        MakeRoomControl(s, id, ok, n, t); MakeRoomDecided(s, id, ok, n, t); MakeRoomStatuses(s, id, ok, n, t);
        MakeRoomLeaders(s, id, ok, n, t); MakeRoomFailure(s, id, ok, n, t); MakeRoomGroup(s, id, ok, n, t);
        MakeRoomContent(s, id, ok, n, t);
      case LogAndApply(id, outcome) =>
        LogControl(s, id, outcome, t); LogDecided(s, id, outcome, t); LogStatuses(s, id, outcome, t); LogLeaders(s, id, outcome, t);
        LogFailure(s, id, outcome, t); LogContent(s, id, outcome, t); LogNumbers(s, id, outcome, t);
      case Settle(id) =>
        SettleControl(s, id, t); SettleFates(s, id, t); SettleFailure(s, id, t); SettleContent(s, id, t);
    }
  }
}
