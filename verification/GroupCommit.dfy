/** What every run of concurrent writers keeps: order, exactly-once, sequence ranges, wakeups. */
module GroupCommit {
  import opened Optional
  import opened Keys
  import opened Batches
  import opened WriteQueue

  // ---------------------------------------------------------------- what the log should hold

  /** Whether a writer's batch is in the memtable, or at least in the log. */
  predicate Counts(w: Writer, memtable: bool) {
    w.fate.Committed? || (!memtable && w.fate.LoggedOnly?)
  }

  /** The batches of the first `n` writers that count, in order of arrival. */
  function Entries(ws: seq<Writer>, n: nat, memtable: bool): seq<Entry>
    requires n <= |ws|
  {
    if n == 0 then []
    else Entries(ws, n - 1, memtable) + if Counts(ws[n - 1], memtable) then BatchEntries(Batch(ws[n - 1].start, Ops(ws[n - 1]))) else []
  }

  /** Whether a writer's batch was given sequence numbers. */
  predicate Numbered(w: Writer) {
    !w.fate.Queued? && !w.fate.Skipped?
  }

  function Total(ws: seq<Writer>, n: nat): nat
    requires n <= |ws|
  {
    if n == 0 then 0 else Total(ws, n - 1) + if Numbered(ws[n - 1]) then |Ops(ws[n - 1])| else 0
  }

  /** The parts of a writer these functions look at. */
  ghost predicate Alike(w: Writer, x: Writer) {
    w.batch == x.batch && w.sync == x.sync && w.fate == x.fate && w.start == x.start
  }

  lemma {:induction false} PrefixSame(ws: seq<Writer>, xs: seq<Writer>, n: nat)
    requires n <= |ws| && n <= |xs| && forall i :: 0 <= i < n ==> Alike(ws[i], xs[i])
    ensures Total(ws, n) == Total(xs, n)
    ensures Entries(ws, n, true) == Entries(xs, n, true) && Entries(ws, n, false) == Entries(xs, n, false)
  {
    if n > 0 { PrefixSame(ws, xs, n - 1); }
  }

  lemma {:induction false} AllOpsSame(ws: seq<Writer>, xs: seq<Writer>, from: nat, n: nat)
    requires from + n <= |ws| && from + n <= |xs| && forall i :: from <= i < from + n ==> ws[i].batch == xs[i].batch
    ensures AllOps(ws, from, n) == AllOps(xs, from, n)
  {
    if n > 0 { AllOpsSame(ws, xs, from, n - 1); }
  }

  lemma {:induction false} AllOpsShift(ws: seq<Writer>, from: nat, n: nat)
    requires from + n <= |ws|
    ensures AllOps(ws[from..], 0, n) == AllOps(ws, from, n)
  {
    if n > 0 { AllOpsShift(ws, from, n - 1); }
  }

  /** Writers that do not count add nothing. */
  lemma {:induction false} Uncounted(ws: seq<Writer>, m: nat, n: nat)
    requires m <= n <= |ws| && forall i :: m <= i < n ==> !Numbered(ws[i])
    ensures Total(ws, n) == Total(ws, m)
    ensures Entries(ws, n, true) == Entries(ws, m, true) && Entries(ws, n, false) == Entries(ws, m, false)
  {
    if m < n { Uncounted(ws, m, n - 1); }
  }

  lemma {:induction false} UncountedIn(ws: seq<Writer>, m: nat, n: nat, memtable: bool)
    requires m <= n <= |ws| && forall i :: m <= i < n ==> !Counts(ws[i], memtable)
    ensures Entries(ws, n, memtable) == Entries(ws, m, memtable)
  {
    if m < n { UncountedIn(ws, m, n - 1, memtable); }
  }

  lemma BatchConcat(seqno: nat, a: seq<(UserKey, Op)>, b: seq<(UserKey, Op)>)
    ensures BatchEntries(Batch(seqno, a + b)) == BatchEntries(Batch(seqno, a)) + BatchEntries(Batch(seqno + |a|, b))
  {
  }

  /** The members of a group start one after the other. */
  ghost predicate Consecutive(ws: seq<Writer>, from: nat, n: nat, seqno: nat) {
    from + n <= |ws| && forall i :: from <= i < from + n ==> ws[i].start == seqno + |AllOps(ws, from, i - from)|
  }

  /** One record for the group stands for the members' batches in order. */
  lemma {:induction false} GroupEntries(ws: seq<Writer>, from: nat, n: nat, seqno: nat, memtable: bool)
    requires from + n <= |ws| && Consecutive(ws, from, n, seqno) && forall i :: from <= i < from + n ==> Counts(ws[i], memtable)
    ensures Entries(ws, from + n, memtable) == Entries(ws, from, memtable) + BatchEntries(Batch(seqno, AllOps(ws, from, n)))
  {
    hide *;
    if n == 0 {
      NoEntries(ws, from, seqno);
    } else {
      ConsecutiveParts(ws, from, n, seqno);
      GroupEntries(ws, from, n - 1, seqno, memtable);
      EntriesStep(ws, from + n - 1, memtable);
      AllOpsStep(ws, from, n);
      var before, w := AllOps(ws, from, n - 1), ws[from + n - 1];
      BatchConcat(seqno, before, Ops(w));
      Reassociate(Entries(ws, from, memtable), BatchEntries(Batch(seqno, before)), BatchEntries(Batch(w.start, Ops(w))));
    }
  }

  lemma NoEntries(ws: seq<Writer>, from: nat, seqno: nat)
    requires from <= |ws|
    ensures BatchEntries(Batch(seqno, AllOps(ws, from, 0))) == []
  {
  }

  lemma ConsecutiveParts(ws: seq<Writer>, from: nat, n: nat, seqno: nat)
    requires 0 < n && Consecutive(ws, from, n, seqno)
    ensures from + n <= |ws| && ws[from + n - 1].start == seqno + |AllOps(ws, from, n - 1)| && Consecutive(ws, from, n - 1, seqno)
  {
    hide AllOps;
    var i := from + n - 1;
    assert ws[i].start == seqno + |AllOps(ws, from, i - from)|;
  }

  lemma EntriesStep(ws: seq<Writer>, i: nat, memtable: bool)
    requires i < |ws| && Counts(ws[i], memtable)
    ensures Entries(ws, i + 1, memtable) == Entries(ws, i, memtable) + BatchEntries(Batch(ws[i].start, Ops(ws[i])))
  {
    hide BatchEntries;
  }

  lemma AllOpsStep(ws: seq<Writer>, from: nat, n: nat)
    requires 0 < n && from + n <= |ws|
    ensures AllOps(ws, from, n) == AllOps(ws, from, n - 1) + Ops(ws[from + n - 1])
  {
  }

  lemma {:induction false} GroupTotal(ws: seq<Writer>, from: nat, n: nat)
    requires from + n <= |ws| && forall i :: from <= i < from + n ==> Numbered(ws[i])
    ensures Total(ws, from + n) == Total(ws, from) + |AllOps(ws, from, n)|
  {
    if n > 0 {
      GroupTotal(ws, from, n - 1);
    }
  }

  // ---------------------------------------------------------------- the invariant

  function Front(s: System): int {
    |s.writers| - |s.queue|
  }

  /** The queue is the latest arrivals in order. Only its head runs, and the head runs or has been
      signalled; a writer that left the queue has returned or has been told and signalled. */
  ghost predicate ControlOk(s: System) {
    && QueueOk(s)
    && (forall i :: 0 <= i < Front(s) ==>
          s.writers[i].phase.Returned? || (s.writers[i].phase == Waiting(true) && s.writers[i].done.Some?))
    && (forall i :: Front(s) <= i < |s.writers| ==> s.writers[i].done.None?)
    && (forall i :: Front(s) < i < |s.writers| ==> s.writers[i].phase.Waiting?)
    && (s.queue != [] ==> var p := s.writers[Front(s)].phase; p != Waiting(false) && !p.Returned?)
  }

  function FateOf(status: Status): Fate {
    match status
    case Ok => Committed
    case RoomError => Skipped
    case LogError => Lost
    case SyncError => LoggedOnly
  }

  /** The status a writer returned with or is about to. */
  function StatusOf(w: Writer): Option<Status> {
    if w.phase.Returned? then Some(w.phase.status) else w.done
  }

  ghost predicate Running(s: System) {
    0 <= Front(s) < |s.writers|
  }

  /** How many writers' batches have been dealt with. */
  ghost function Reach(s: System): int {
    if Running(s) && s.writers[Front(s)].phase.Settling? then s.writers[Front(s)].phase.last + 1 else Front(s)
  }

  ghost predicate DecidedOk(s: System) {
    && Reach(s) <= |s.writers|
    && (forall i :: 0 <= i < |s.writers| ==> (s.writers[i].fate.Queued? <==> i >= Reach(s)))
  }

  /** Whoever left the queue has the status that tells what became of its batch. */
  ghost predicate StatusesOk(s: System) {
    forall i :: 0 <= i < Front(s) && i < |s.writers| ==>
      StatusOf(s.writers[i]).Some? && s.writers[i].fate == FateOf(StatusOf(s.writers[i]).value)
  }

  /** A sync write was logged by a sync leader. */
  ghost predicate LeadersOk(s: System) {
    forall i :: 0 <= i < |s.writers| && Numbered(s.writers[i]) ==>
      s.writers[i].leader <= i && (s.writers[i].sync ==> s.writers[s.writers[i].leader].sync)
  }

  /** The group of a leader: its members' numbers while it logs, its fate while it settles. */
  ghost predicate GroupOk(s: System) {
    Running(s) ==>
      var f := Front(s);
      match s.writers[f].phase
      case Logging(last, record) =>
        && f <= last < |s.writers| && !s.failed && s.writers[f].batch.Some?
        && record == Batch(s.lastSequence + 1, AllOps(s.writers, f, last - f + 1))
        && Consecutive(s.writers, f, last - f + 1, s.lastSequence + 1)
        && (forall i :: f <= i <= last ==> s.writers[i].leader == f && (s.writers[i].sync ==> s.writers[f].sync))
      case Settling(last, count, status) =>
        && f <= last < |s.writers| && (s.failed ==> status.RoomError?) && (s.writers[f].batch.None? ==> last == f)
        && (forall i :: f <= i <= last ==> s.writers[i].fate == FateOf(status))
      case _ => true
  }

  ghost predicate FailureOk(s: System) {
    forall i :: 0 <= i < |s.writers| && s.writers[i].fate.LoggedOnly? ==>
      s.failed || (Running(s) && s.writers[Front(s)].phase.Settling? && s.writers[Front(s)].phase.status.SyncError?)
  }

  /** Nothing is committed behind a batch whose sync failed. */
  ghost predicate TailOk(s: System) {
    forall i, j :: 0 <= i < j < |s.writers| && s.writers[i].fate.LoggedOnly? ==> !s.writers[j].fate.Committed?
  }

  ghost predicate ContentOk(s: System) {
    && LogEntries(s.log) == Entries(s.writers, |s.writers|, false)
    && s.applied == Entries(s.writers, |s.writers|, true)
  }

  ghost predicate NumbersOk(s: System) {
    && (forall i :: 0 <= i < |s.writers| && Numbered(s.writers[i]) ==> s.writers[i].start == 1 + Total(s.writers, i))
    && Total(s.writers, |s.writers|) == s.lastSequence +
       (if Running(s) && s.writers[Front(s)].phase.Settling? then s.writers[Front(s)].phase.count else 0)
    && (Running(s) && s.writers[Front(s)].phase.Settling? ==> Total(s.writers, Front(s)) == s.lastSequence)
  }

  ghost predicate Inv(s: System) {
    ControlOk(s) && DecidedOk(s) && StatusesOk(s) && LeadersOk(s) && GroupOk(s) && FailureOk(s) && TailOk(s) && ContentOk(s) && NumbersOk(s)
  }
}
