/** The writer queue updated in place: each method is a stretch of `DBImpl::Write` that runs without
    giving up the mutex, or the I/O done without it, and takes exactly the matching protocol step. */
module Writers {
  import opened Optional
  import opened Keys
  import opened Batches
  import opened WriteQueue
  import opened GroupCommit
  import opened GroupCommitProof

  class WriteThread {
    var writers: seq<Writer>
    var queue: seq<nat>
    var log: seq<Batch>
    var applied: seq<Entry>
    var lastSequence: nat
    var failed: bool
    var synced: nat

    function State(): (s: System)
      reads this
    {
      System(writers, queue, log, applied, lastSequence, failed, synced)
    }

    constructor ()
      ensures State() == INIT
    {
      writers, queue, log, applied, lastSequence, failed, synced := [], [], [], [], 0, false, 0;
    }

    /** `push_back`, and the loop condition for the first time. */
    method Arrive(batch: Option<WriteBatch>, sync: bool) returns (id: nat)
      modifies this
      ensures Next(old(State()), Enter(batch, sync), State()) && id == |old(writers)|
    {
      id := |writers|;
      var phase := if queue == [] then Leading else Waiting(false);
      writers := writers + [Writer(batch, sync, phase, None, Queued, 0, 0)];
      queue := queue + [id];
    }

    /** Back from `cv.Wait`. */
    method Recheck(id: nat)
      requires id < |writers| && writers[id].phase.Waiting?
      modifies this
      ensures Next(old(State()), Wake(id), State())
    {
      var w := writers[id];
      var phase := Waiting(false);
      if w.done.Some? {
        phase := Returned(w.done.value);
      } else if queue != [] && queue[0] == id {
        phase := Leading;
      }
      writers := writers[id := w.(phase := phase)];
    }

    /** After `MakeRoomForWrite` returned: `BuildBatchGroup` and `SetSequence`, or straight to the end. */
    method RoomMade(id: nat, ok: bool) returns (n: nat)
      requires ControlOk(State()) && Running(State()) && id == Front(State()) && writers[id].phase.Leading? && (failed ==> !ok)
      modifies this
      ensures Next(old(State()), MakeRoom(id, ok, n), State())
    {
      var w := writers[id];
      n := 0;
      if ok && w.batch.Some? {
        n, writers := NumberGroup(State(), id);
      } else {
        writers := writers[id := w.(phase := Settling(id, 0, if ok then Ok else RoomError), fate := if ok then Committed else Skipped,
                                    start := lastSequence + 1, leader := id)];
      }
    }

    /** `AddRecord`, `Sync`, `InsertInto`, with the result the environment gave. */
    method LogGroup(id: nat, outcome: Status)
      requires id < |writers| && writers[id].phase.Logging? && id <= writers[id].phase.last < |writers|
      requires !outcome.RoomError? && (outcome.SyncError? ==> writers[id].sync)
      modifies this
      ensures Next(old(State()), LogAndApply(id, outcome), State())
    {
      hide BatchEntries, Decided;
      var record := writers[id].phase.record;
      var last := writers[id].phase.last;
      if !outcome.LogError? {
        log := log + [record];
        if writers[id].sync && !outcome.SyncError? {
          synced := |log|;
        }
      }
      if outcome.Ok? {
        applied := applied + BatchEntries(record);
      }
      var fate := match outcome case Ok => Committed case SyncError => LoggedOnly case _ => Lost;
      writers := Decided(writers, id, last, fate, Settling(last, |record.ops|, outcome));
    }

    /** Publish the sequence number, pop the group and tell its members, wake the next head. */
    method Release(id: nat)
      requires ControlOk(State()) && GroupOk(State()) && Running(State()) && id == Front(State()) && writers[id].phase.Settling?
      modifies this
      ensures Next(old(State()), Settle(id), State())
    {
      ghost var was := State();
      SettlingFits(was, id);
      hide ControlOk, GroupOk, NextSettle, QueueOk;
      var Settling(last, count, status) := writers[id].phase;
      lastSequence := lastSequence + count;
      failed := failed || status.SyncError?;
      PopGroup(id, last, status);
      NextHead(was, id, last);
      if queue != [] {
        var next := queue[0];
        writers := writers[next := writers[next].(phase := Waiting(true))];
      }
      writers := writers[id := writers[id].(phase := Returned(status))];
      Released(was, id, last, count, status, State());
    }

    /** Pops up to and including `last`; everyone but the leader itself is told and signalled. */
    method PopGroup(id: nat, last: nat, status: Status)
      requires QueueOk(State()) && queue != [] && queue[0] == id <= last < |writers|
      modifies this`queue, this`writers
      ensures queue == old(queue)[last - id + 1..] && |writers| == |old(writers)|
      ensures forall i :: 0 <= i < |writers| && !(id < i <= last) ==> writers[i] == old(writers)[i]
      ensures forall i :: id < i <= last ==> writers[i] == old(writers)[i].(done := Some(status), phase := Waiting(true))
    {
      var ready := queue[0];
      queue := queue[1..];
      while ready != last
        invariant id <= ready <= last && queue == old(queue)[ready - id + 1..] && |writers| == |old(writers)|
        invariant forall i :: 0 <= i < |writers| && !(id < i <= ready) ==> writers[i] == old(writers)[i]
        invariant forall i :: id < i <= ready ==> writers[i] == old(writers)[i].(done := Some(status), phase := Waiting(true))
        decreases last - ready
      {
        assert queue[0] == ready + 1;
        ready := queue[0];
        queue := queue[1..];
        writers := writers[ready := writers[ready].(done := Some(status), phase := Waiting(true))];
      }
    }
  }

  /** `BuildBatchGroup` on the queue, and the numbers its members get. */
  method NumberGroup(s: System, id: nat) returns (n: nat, ws: seq<Writer>)
    requires ControlOk(s) && Running(s) && id == Front(s) && s.writers[id].phase.Leading? && s.writers[id].batch.Some? && !s.failed
    ensures NextMakeRoom(s, id, true, n, s.(writers := ws))
  {
    hide *;
    LeaderAt(s, id);
    var ops, copied;
    n, ops, copied := BuildBatchGroup(s.writers[id..]);
    GroupIsIn(s, id, n);
    AllOpsShift(s.writers, id, n);
    var phase := Logging(id + n - 1, Batch(s.lastSequence + 1, ops));
    StartedIs(s.writers, id, n, s.lastSequence + 1, phase);
    ws := Started(s.writers, id, n, s.lastSequence + 1, phase);
    GroupNumbered(s, id, n, ws);
  }

  lemma SettlingFits(s: System, id: nat)
    requires ControlOk(s) && GroupOk(s) && Running(s) && id == Front(s) && s.writers[id].phase.Settling?
    ensures QueueOk(s) && id <= s.writers[id].phase.last < |s.writers| && s.queue != [] && s.queue[0] == id
  {
  }

  /** What is left of the queue after a group starts with the next writer, if there is one. */
  lemma NextHead(s: System, id: nat, last: nat)
    requires QueueOk(s) && id == Front(s) && id <= last < |s.writers|
    ensures last - id + 1 <= |s.queue| && (s.queue[last - id + 1..] != [] <==> last + 1 < |s.writers|)
    ensures last + 1 < |s.writers| ==> s.queue[last - id + 1..][0] == last + 1
  {
  }

  lemma Released(s: System, id: nat, last: nat, count: nat, status: Status, t: System)
    requires QueueOk(s) && id == Front(s) && id <= last < |s.writers| && s.queue != [] && s.queue[0] == id
    requires s.writers[id].phase == Settling(last, count, status) && |t.writers| == |s.writers|
    requires t == s.(writers := t.writers, queue := s.queue[last - id + 1..], lastSequence := s.lastSequence + count,
                     failed := s.failed || status.SyncError?)
    requires forall i :: 0 <= i < |s.writers| && !(id <= i <= last + 1) ==> t.writers[i] == s.writers[i]
    requires forall i :: id < i <= last ==> t.writers[i] == s.writers[i].(done := Some(status), phase := Waiting(true))
    requires t.writers[id] == s.writers[id].(phase := Returned(status))
    requires last + 1 < |s.writers| ==> t.writers[last + 1] == s.writers[last + 1].(phase := Waiting(true))
    ensures Next(s, Settle(id), t)
  {
  }

  lemma LeaderAt(s: System, id: nat)
    requires ControlOk(s) && Running(s) && id == Front(s)
    ensures id < |s.writers| && QueueOk(s) && s.writers[id..] != [] && s.writers[id..][0] == s.writers[id]
  {
  }

  lemma GroupIsIn(s: System, id: nat, n: nat)
    requires QueueOk(s) && id == Front(s) && id <= |s.writers| && IsGroup(s.writers[id..], n)
    ensures 0 < n && id + n <= |s.writers| && InQueue(s) == s.writers[id..]
  {
    QueueIs(s);
  }

  lemma GroupNumbered(s: System, id: nat, n: nat, ws: seq<Writer>)
    requires ControlOk(s) && Running(s) && id == Front(s) && s.writers[id].phase.Leading? && s.writers[id].batch.Some? && !s.failed
    requires QueueOk(s) && IsGroup(InQueue(s), n) && 0 < n && id + n <= |s.writers|
    requires |ws| == |s.writers| && Starts(s.writers, ws, id, n, s.lastSequence + 1, id)
    requires ws[id].phase == Logging(id + n - 1, Batch(s.lastSequence + 1, AllOps(s.writers, id, n)))
    requires forall i :: id < i < id + n ==> ws[i].phase == s.writers[i].phase
    ensures NextMakeRoom(s, id, true, n, s.(writers := ws))
  {
    hide AllOps, IsGroup, Starts;
  }
}
