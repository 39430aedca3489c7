/** Group commit as a protocol: writers queue up, the head of the queue logs its own batch together
    with batches queued behind it, and tells their writers. Every step is one critical section of
    `DBImpl::Write`, or its I/O between two. */
module WriteQueue {
  import opened Optional
  import opened Keys
  import opened Batches

  /** A caller's batch: its operations and the size of its encoding. */
  datatype WriteBatch = WriteBatch(ops: seq<(UserKey, Op)>, bytes: nat)

  datatype Status = Ok | RoomError | LogError | SyncError

  /** In `cv.Wait` or woken by a signal, at the head and making room, logging without the mutex, about
      to release the group with a status, or back at the caller. */
  datatype Phase =
    | Waiting(signalled: bool)
    | Leading
    | Logging(last: nat, record: Batch)
    | Settling(last: nat, count: nat, status: Status)
    | Returned(status: Status)

  /** What became of a writer's batch: still queued, never attempted, in a group whose logging failed,
      logged but not synced, or in the log and the memtable. A history variable, as are `start`, the
      first sequence number given to the batch, and `leader`, who logged it. */
  datatype Fate = Queued | Skipped | Lost | LoggedOnly | Committed

  datatype Writer = Writer(
    batch: Option<WriteBatch>,
    sync: bool,
    phase: Phase,
    done: Option<Status>,
    fate: Fate,
    start: nat,
    leader: nat)

  /** Writers in order of arrival; the queue holds their numbers. `applied` is what has been added to
      the memtable, in order; the first `synced` records of the log are known to be on disk. */
  datatype System = System(
    writers: seq<Writer>,
    queue: seq<nat>,
    log: seq<Batch>,
    applied: seq<Entry>,
    lastSequence: nat,
    failed: bool,
    synced: nat)

  // ---------------------------------------------------------------- the group

  const MAX_GROUP: nat := 0x10_0000
  const SMALL: nat := 0x2_0000

  function Bytes(w: Writer): nat {
    if w.batch.Some? then w.batch.value.bytes else 0
  }

  function Ops(w: Writer): seq<(UserKey, Op)> {
    if w.batch.Some? then w.batch.value.ops else []
  }

  /** Total size of the first `n` writers' batches, and the operations of `n` writers in order. */
  function TotalBytes(ws: seq<Writer>, n: nat): nat
    requires n <= |ws|
  {
    if n == 0 then 0 else TotalBytes(ws, n - 1) + Bytes(ws[n - 1])
  }

  function AllOps(ws: seq<Writer>, from: nat, n: nat): seq<(UserKey, Op)>
    requires from + n <= |ws|
  {
    if n == 0 then [] else AllOps(ws, from, n - 1) + Ops(ws[from + n - 1])
  }

  function Limit(leader: Writer): nat {
    if Bytes(leader) <= SMALL then Bytes(leader) + SMALL else MAX_GROUP
  }

  /** Whether the group led by `ws[0]` can grow to include `ws[i]`. */
  predicate Joins(ws: seq<Writer>, i: nat)
    requires 0 < i < |ws|
  {
    && (ws[i].sync ==> ws[0].sync)
    && (ws[i].batch.Some? ==> TotalBytes(ws, i + 1) <= Limit(ws[0]))
  }

  /** The first `n` queued writers are the group: all of them join, and the next one does not. */
  ghost predicate IsGroup(ws: seq<Writer>, n: nat) {
    && 0 < n <= |ws|
    && (forall i :: 0 < i < n ==> Joins(ws, i))
    && (n < |ws| ==> !Joins(ws, n))
  }

  /** The largest group a leader may form: a small write is not slowed down much. */
  method GroupLimit(first: Writer) returns (max: nat)
    requires first.batch.Some?
    ensures max == Limit(first)
    ensures if first.batch.value.bytes <= SMALL then max == first.batch.value.bytes + SMALL <= 2 * SMALL else max == MAX_GROUP
  {
    max := 1048576;
    if first.batch.value.bytes <= 131072 {
      max := first.batch.value.bytes + 131072;
    }
  }

  /** `BuildBatchGroup`: the size of the group, its operations in queue order, and whether the caller's
      batch was left alone in favour of the temporary one. */
  method BuildBatchGroup(ws: seq<Writer>) returns (n: nat, ops: seq<(UserKey, Op)>, copied: bool)
    requires ws != [] && ws[0].batch.Some?
    ensures IsGroup(ws, n) && ops == AllOps(ws, 0, n)
    ensures copied <==> FollowerWrites(ws, n)
  {
    var first := ws[0];
    ops := first.batch.value.ops;
    copied := false;
    var size := first.batch.value.bytes;
    n := 1;
    GroupStart(ws);
    hide *;
    var max := GroupLimit(first);
    var joined := true;
    while joined && n < |ws|
      invariant 0 < n <= |ws| && ops == AllOps(ws, 0, n)
      invariant joined ==> size == TotalBytes(ws, n)
      invariant AllJoin(ws, n) && (copied <==> FollowerWrites(ws, n))
      invariant !joined ==> n < |ws| && !Joins(ws, n)
      decreases |ws| - n, joined
    {
      joined, ops, size, copied := TryJoin(ws, n, ops, size, max, copied);
      if joined {
        AllJoinNext(ws, n);
        n := n + 1;
      }
    }
    GroupIntro(ws, n);
  }

  /** How large a group gets: a small leader is joined by at most 128 KB, any other group stays within
      1 MB or consists of the leader's own batch. */
  lemma GroupBounded(ws: seq<Writer>, n: nat)
    requires IsGroup(ws, n)
    ensures Bytes(ws[0]) <= 131072 ==> TotalBytes(ws, n) <= Bytes(ws[0]) + 131072
    ensures Bytes(ws[0]) > 131072 ==> TotalBytes(ws, n) <= 1048576 || TotalBytes(ws, n) == Bytes(ws[0])
    ensures TotalBytes(ws, n) == Bytes(ws[0]) || TotalBytes(ws, n) <= Limit(ws[0])
  {
    BoundedUpTo(ws, n, n);
  }

  /** A group takes in whoever may join: it ends with the queue, before a sync write behind a leader
      that does not sync, or before a batch that would make it too large. */
  lemma GroupMaximal(ws: seq<Writer>, n: nat)
    requires IsGroup(ws, n)
    ensures var limit := if Bytes(ws[0]) <= 131072 then Bytes(ws[0]) + 131072 else 1048576;
            && (n < |ws| ==> || (ws[n].sync && !ws[0].sync)
                             || (ws[n].batch.Some? && TotalBytes(ws, n) + ws[n].batch.value.bytes > limit))
            && (forall i :: 0 < i < n ==> && !(ws[i].sync && !ws[0].sync)
                                          && (ws[i].batch.Some? ==> TotalBytes(ws, i) + ws[i].batch.value.bytes <= limit))
  {
  }

  lemma {:induction false} BoundedUpTo(ws: seq<Writer>, n: nat, k: nat)
    requires IsGroup(ws, n) && 0 < k <= n
    ensures TotalBytes(ws, k) == Bytes(ws[0]) || TotalBytes(ws, k) <= Limit(ws[0])
  {
    if k == 1 {
      assert TotalBytes(ws, 1) == TotalBytes(ws, 0) + Bytes(ws[0]);
    } else {
      BoundedUpTo(ws, n, k - 1);
      assert Joins(ws, k - 1);
    }
  }

  ghost predicate FollowerWrites(ws: seq<Writer>, n: nat)
    requires n <= |ws|
  {
    exists i :: 0 < i < n && ws[i].batch.Some?
  }

  lemma GroupStart(ws: seq<Writer>)
    requires ws != [] && ws[0].batch.Some?
    ensures AllOps(ws, 0, 1) == ws[0].batch.value.ops && TotalBytes(ws, 1) == ws[0].batch.value.bytes
    ensures !FollowerWrites(ws, 1) && AllJoin(ws, 1)
  {
    assert AllOps(ws, 0, 1) == AllOps(ws, 0, 0) + Ops(ws[0]) && TotalBytes(ws, 1) == TotalBytes(ws, 0) + Bytes(ws[0]);
  }

  lemma GroupStep(ws: seq<Writer>, n: nat)
    requires 0 < n < |ws|
    ensures AllOps(ws, 0, n + 1) == AllOps(ws, 0, n) + Ops(ws[n]) && (ws[n].batch.None? ==> AllOps(ws, 0, n + 1) == AllOps(ws, 0, n))
    ensures ws[n].batch.Some? ==> Ops(ws[n]) == ws[n].batch.value.ops
    ensures TotalBytes(ws, n + 1) == TotalBytes(ws, n) + (if ws[n].batch.Some? then ws[n].batch.value.bytes else 0)
    ensures Joins(ws, n) <==> (ws[n].sync ==> ws[0].sync) && (ws[n].batch.Some? ==> TotalBytes(ws, n + 1) <= Limit(ws[0]))
    ensures FollowerWrites(ws, n + 1) <==> FollowerWrites(ws, n) || ws[n].batch.Some?
  {
  }

  lemma GroupIntro(ws: seq<Writer>, n: nat)
    requires 0 < n <= |ws| && AllJoin(ws, n) && (n < |ws| ==> !Joins(ws, n))
    ensures IsGroup(ws, n)
  {
  }

  ghost predicate AllJoin(ws: seq<Writer>, n: nat)
    requires n <= |ws|
  {
    forall i :: 0 < i < n ==> Joins(ws, i)
  }

  lemma AllJoinNext(ws: seq<Writer>, n: nat)
    requires 0 < n < |ws| && AllJoin(ws, n) && Joins(ws, n)
    ensures AllJoin(ws, n + 1)
  {
  }

  /** One turn of the loop over the followers. */
  method TryJoin(ws: seq<Writer>, n: nat, ops0: seq<(UserKey, Op)>, size0: nat, max: nat, copied0: bool)
      returns (joined: bool, ops: seq<(UserKey, Op)>, size: nat, copied: bool)
    requires 0 < n < |ws| && ops0 == AllOps(ws, 0, n) && size0 == TotalBytes(ws, n) && max == Limit(ws[0])
    requires copied0 <==> FollowerWrites(ws, n)
    ensures joined <==> Joins(ws, n)
    ensures if joined then ops == AllOps(ws, 0, n + 1) && size == TotalBytes(ws, n + 1) && (copied <==> FollowerWrites(ws, n + 1))
            else ops == ops0 && copied == copied0
  {
    hide *;
    var w := ws[n];
    GroupStep(ws, n);
    joined, ops, size, copied := true, ops0, size0, copied0;
    if w.sync && !ws[0].sync {
      return false, ops, size, copied;
    }
    if w.batch.Some? {
      size := size + w.batch.value.bytes;
      if size > max {
        return false, ops, size, copied;
      }
      copied := true;
      ops := ops + w.batch.value.ops;
    }
  }

  // ---------------------------------------------------------------- steps

  datatype Action =
    | Enter(batch: Option<WriteBatch>, sync: bool)
    | Wake(id: nat)
    | MakeRoom(id: nat, ok: bool, n: nat)
    | LogAndApply(id: nat, outcome: Status)
    | Settle(id: nat)

  ghost predicate NextEnter(s: System, batch: Option<WriteBatch>, sync: bool, t: System) {
    var phase := if s.queue == [] then Leading else Waiting(false);
    t == s.(writers := s.writers + [Writer(batch, sync, phase, None, Queued, 0, 0)], queue := s.queue + [|s.writers|])
  }

  /** A waiting writer rechecks its condition, whether or not it was signalled. */
  ghost predicate NextWake(s: System, id: nat, t: System) {
    && id < |s.writers| && s.writers[id].phase.Waiting?
    && var w := s.writers[id];
       var phase := if w.done.Some? then Returned(w.done.value) else if s.queue != [] && s.queue[0] == id then Leading else Waiting(false);
       t == s.(writers := s.writers[id := w.(phase := phase)])
  }

  /** The writers in the queue, in order. */
  function InQueue(s: System): seq<Writer>
    requires forall i :: 0 <= i < |s.queue| ==> s.queue[i] < |s.writers|
  {
    seq(|s.queue|, i requires 0 <= i < |s.queue| => s.writers[s.queue[i]])
  }

  ghost predicate QueueOk(s: System) {
    && |s.queue| <= |s.writers|
    && forall i :: 0 <= i < |s.queue| ==> s.queue[i] == |s.writers| - |s.queue| + i
  }

  /** The sequence numbers of the first `n` writers' batches follow one another. */
  ghost predicate Starts(was: seq<Writer>, now: seq<Writer>, from: nat, n: nat, seqno: nat, leader: nat) {
    && |now| == |was| && from + n <= |was|
    && (forall i :: 0 <= i < |was| && !(from <= i < from + n) ==> now[i] == was[i])
    && (forall i :: from <= i < from + n ==>
          now[i] == was[i].(start := seqno + |AllOps(was, from, i - from)|, leader := leader, phase := now[i].phase))
  }

  /** The head of the queue has found room or not. With room and a batch it forms a group of `n` and
      gives it the next sequence numbers; a null batch only releases itself. */
  ghost predicate NextMakeRoom(s: System, id: nat, ok: bool, n: nat, t: System) {
    && id < |s.writers| && s.writers[id].phase.Leading? && QueueOk(s) && s.queue != [] && s.queue[0] == id
    && (s.failed ==> !ok)
    && var w := s.writers[id];
       if ok && w.batch.Some? then
         && IsGroup(InQueue(s), n) && id + n <= |s.writers|
         && var record := Batch(s.lastSequence + 1, AllOps(s.writers, id, n));
            && t == s.(writers := t.writers)
            && Starts(s.writers, t.writers, id, n, s.lastSequence + 1, id)
            && t.writers[id].phase == Logging(id + n - 1, record)
            && forall i :: id < i < id + n ==> t.writers[i].phase == s.writers[i].phase
       else
         var status := if ok then Ok else RoomError;
         t == s.(writers := s.writers[id := w.(phase := Settling(id, 0, status), fate := if ok then Committed else Skipped,
                                               start := s.lastSequence + 1, leader := id)])
  }

  /** Log, sync if the leader asks for it, and insert into the memtable. */
  ghost predicate NextLogAndApply(s: System, id: nat, outcome: Status, t: System) {
    && id < |s.writers| && s.writers[id].phase.Logging? && id <= s.writers[id].phase.last < |s.writers|
    && !outcome.RoomError? && (outcome.SyncError? ==> s.writers[id].sync)
    && var Logging(last, record) := s.writers[id].phase;
       var fate := match outcome case Ok => Committed case SyncError => LoggedOnly case _ => Lost;
       && t == s.(writers := t.writers,
                  log := if outcome.LogError? then s.log else s.log + [record],
                  applied := if outcome.Ok? then s.applied + BatchEntries(record) else s.applied,
                  synced := if outcome.Ok? && s.writers[id].sync then |s.log| + 1 else s.synced)
       && |t.writers| == |s.writers|
       && (forall i :: 0 <= i < |s.writers| && !(id <= i <= last) ==> t.writers[i] == s.writers[i])
       && (forall i :: id < i <= last ==> t.writers[i] == s.writers[i].(fate := fate))
       && t.writers[id] == s.writers[id].(fate := fate, phase := Settling(last, |record.ops|, outcome))
  }

  /** Publish the sequence number, release the group, signal the next head. */
  ghost predicate NextSettle(s: System, id: nat, t: System) {
    && id < |s.writers| && s.writers[id].phase.Settling? && QueueOk(s)
    && var Settling(last, count, status) := s.writers[id].phase;
       && id <= last < |s.writers| && s.queue != [] && s.queue[0] == id && last - id < |s.queue|
       && t == s.(writers := t.writers, queue := s.queue[last - id + 1..], lastSequence := s.lastSequence + count,
                  failed := s.failed || status.SyncError?)
       && |t.writers| == |s.writers|
       && (forall i :: 0 <= i < |s.writers| && !(id <= i <= last + 1) ==> t.writers[i] == s.writers[i])
       && (forall i :: id < i <= last ==> t.writers[i] == s.writers[i].(done := Some(status), phase := Waiting(true)))
       && t.writers[id] == s.writers[id].(phase := Returned(status))
       && (last + 1 < |s.writers| ==> t.writers[last + 1] == s.writers[last + 1].(phase := Waiting(true)))
  }

  /** The history variables a group's fate sets, and its leader's new phase. */
  function Decided(ws: seq<Writer>, id: nat, last: nat, fate: Fate, phase: Phase): (r: seq<Writer>)
    requires id <= last < |ws|
    ensures |r| == |ws| && r[id] == ws[id].(fate := fate, phase := phase)
    ensures forall i :: 0 <= i < |ws| && !(id <= i <= last) ==> r[i] == ws[i]
    ensures forall i :: id < i <= last ==> r[i] == ws[i].(fate := fate)
  {
    seq(|ws|, i requires 0 <= i < |ws| =>
      if i == id then ws[i].(fate := fate, phase := phase) else if id <= i <= last then ws[i].(fate := fate) else ws[i])
  }

  /** The sequence numbers a group's members get, and its leader's new phase. */
  function Started(ws: seq<Writer>, id: nat, n: nat, seqno: nat, phase: Phase): seq<Writer>
    requires 0 < n && id + n <= |ws|
  {
    seq(|ws|, i requires 0 <= i < |ws| =>
      if id <= i < id + n then
        ws[i].(start := seqno + |AllOps(ws, id, i - id)|, leader := id, phase := if i == id then phase else ws[i].phase)
      else ws[i])
  }

  lemma StartedIs(ws: seq<Writer>, id: nat, n: nat, seqno: nat, phase: Phase)
    requires 0 < n && id + n <= |ws|
    ensures var r := Started(ws, id, n, seqno, phase);
            |r| == |ws| && Starts(ws, r, id, n, seqno, id) && r[id].phase == phase && forall i :: id < i < id + n ==> r[i].phase == ws[i].phase
  {
    hide AllOps;
  }

  ghost predicate Next(s: System, a: Action, t: System) {
    match a
    case Enter(batch, sync) => NextEnter(s, batch, sync, t)
    case Wake(id) => NextWake(s, id, t)
    case MakeRoom(id, ok, n) => NextMakeRoom(s, id, ok, n, t)
    case LogAndApply(id, outcome) => NextLogAndApply(s, id, outcome, t)
    case Settle(id) => NextSettle(s, id, t)
  }

  const INIT := System([], [], [], [], 0, false, 0)
}
